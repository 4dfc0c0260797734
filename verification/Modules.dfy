/**
A module: one cursor and one literal pool run through its scope and through all of its
functions, so no id is defined by two instructions and every id is below the bound.
 */
module Modules {
  import opened Options
  import opened Kernel
  import opened Scalars
  import opened Literals
  import opened Structure
  import opened Planner
  import opened Emission
  import opened Ssa
  import opened EmissionIds
  import opened FunctionIds
  import opened Emitters

  // ---- module scope ----

  /** What the ids of module scope are counted from. */
  datatype Shape = Shape(classes: nat, functions: nat, buffers: nat, shared: seq<nat>, slices: seq<nat>, members: nat)

  /** Types, constants and variables every module takes an id for, whether it declares them or not. */
  const FIXED_IDS: nat := 16
  const CHAIN_IDS: nat := 5
  const BARRIER_IDS: nat := 6
  const BLOCK_IDS: nat := 3
  const CLASS_COUNT: nat := 3

  function Repeat(count: nat, times: nat): (r: seq<nat>)
    ensures |r| == times
  {
    seq(times, _ => count)
  }

  /** Three ids for each shared shape, and one more where its length is new. */
  function SharedCounts(lengths: seq<nat>): seq<nat> {
    if lengths == [] then []
    else
      var before := lengths[..|lengths| - 1];
      SharedCounts(before) + if lengths[|lengths| - 1] in before then [3] else [3, 1]
  }

  /** The ids `compile` takes before any body, take by take. */
  function ScopeCounts(s: Shape): seq<nat> {
    Repeat(1, FIXED_IDS) + Repeat(CHAIN_IDS, s.classes) + [s.functions, s.functions, s.buffers] + SharedCounts(s.shared)
      + s.slices + Repeat(1, BARRIER_IDS) + Repeat(1, BLOCK_IDS) + [CLASS_COUNT] + Repeat(1, s.members)
  }

  /** The first take is of id 1, and each starts where the one before it ended. */
  ghost predicate InTurn(counts: seq<nat>, firsts: seq<nat>, taken: nat) {
    && |firsts| == |counts| && taken == EndOf(counts, firsts, |counts|)
    && forall i: nat :: i < |firsts| ==> firsts[i] == EndOf(counts, firsts, i)
  }

  ghost function EndOf(counts: seq<nat>, firsts: seq<nat>, i: nat): nat
    requires i <= |firsts| == |counts|
  {
    if i == 0 then 1 else firsts[i - 1] + counts[i - 1]
  }

  /** The takes are apart, above 0 and below a bound. */
  ghost predicate Consecutive(counts: seq<nat>, firsts: seq<nat>, taken: nat) {
    && |firsts| == |counts| && 0 < taken
    && (forall i: nat :: i < |firsts| ==> 0 < firsts[i] && firsts[i] + counts[i] <= taken)
    && (forall i: nat, j: nat :: i < j < |firsts| ==> firsts[i] + counts[i] <= firsts[j])
  }

  method TakeScope(counts: seq<nat>) returns (firsts: seq<nat>, taken: nat)
    ensures Consecutive(counts, firsts, taken) && InTurn(counts, firsts, taken)
  {
    firsts, taken := [], 1;
    for k := 0 to |counts|
      invariant Consecutive(counts[..k], firsts, taken) && InTurn(counts[..k], firsts, taken)
    {
      assert counts[..k + 1] == counts[..k] + [counts[k]];
      OneMoreTake(counts[..k], firsts, taken, counts[k]);
      firsts := firsts + [taken];
      taken := taken + counts[k];
    }
    assert counts[..|counts|] == counts;
  }

  lemma OneMoreTake(counts: seq<nat>, firsts: seq<nat>, taken: nat, count: nat)
    requires Consecutive(counts, firsts, taken) && InTurn(counts, firsts, taken)
    ensures Consecutive(counts + [count], firsts + [taken], taken + count)
    ensures InTurn(counts + [count], firsts + [taken], taken + count)
  {
    OneMoreInTurn(counts, firsts, taken, count);
  }

  lemma OneMoreInTurn(counts: seq<nat>, firsts: seq<nat>, taken: nat, count: nat)
    requires InTurn(counts, firsts, taken)
    ensures InTurn(counts + [count], firsts + [taken], taken + count)
  {
    forall i: nat | i <= |firsts| ensures (firsts + [taken])[i] == EndOf(counts + [count], firsts + [taken], i) {
      assert EndOf(counts + [count], firsts + [taken], i) == EndOf(counts, firsts, i);
    }
  }

  // ---- the functions ----

  /**
  The scope's takes, the functions with the cursor each started from, and the cursor at the end: its position is the
  header's bound.
   */
  datatype Module = Module(counts: seq<nat>, firsts: seq<nat>, functions: seq<Function>, starts: seq<Cursor>,
    at: Cursor)

  /** The functions a body can be emitted as from a cursor. */
  ghost function Emissions(body: Body, s: Signature, start: Cursor): iset<Function> {
    iset f: Function | Emits(body, s, start, f)
  }

  /** Each function is its body's, from its own start. */
  ghost predicate AllEmitted(bodies: seq<Body>, signatures: seq<Signature>, m: Module) {
    && |bodies| == |signatures| && |m.functions| == |m.starts| <= |bodies|
    && forall i: nat :: i < |m.functions| ==> m.functions[i] in Emissions(bodies[i], signatures[i], m.starts[i])
  }

  ghost predicate Ascending(m: Module, first: nat) {
    && |m.functions| == |m.starts| && first <= m.at.next
    && (forall i: nat :: i < |m.starts| ==> first <= m.starts[i].next && m.functions[i].after.next <= m.at.next)
    && (forall i: nat, j: nat :: i < j < |m.starts| ==> m.functions[i].after.next <= m.starts[j].next)
  }

  /** Each function starts from the cursor the one before it left, the first one where the scope's takes end. */
  ghost predicate Chained(m: Module, first: nat) {
    && |m.functions| == |m.starts| && InTurn(m.counts, m.firsts, first)
    && m.at == CursorAfter(m, first, |m.functions|)
    && forall i: nat :: i < |m.starts| ==> m.starts[i] == CursorAfter(m, first, i)
  }

  ghost function CursorAfter(m: Module, first: nat, i: nat): Cursor
    requires i <= |m.functions|
  {
    if i == 0 then Cursor(EmptyTable(), first) else m.functions[i - 1].after
  }

  lemma ChainedSnoc(m: Module, first: nat, f: Function)
    requires Chained(m, first)
    ensures Chained(m.(functions := m.functions + [f], starts := m.starts + [m.at], at := f.after), first)
  {
    var m' := m.(functions := m.functions + [f], starts := m.starts + [m.at], at := f.after);
    forall i: nat | i < |m'.starts| ensures m'.starts[i] == CursorAfter(m', first, i) {
      if i < |m.starts| { assert m.starts[i] == CursorAfter(m, first, i); }
    }
  }

  /** Function `i` is the one that asked for a literal first. */
  ghost predicate AskedBy(m: Module, key: Key, i: nat) {
    && i < |m.functions| == |m.starts| && key in m.at.pool.ids
    && key !in m.starts[i].pool.ids && key in m.functions[i].work.at.pool.ids
    && m.functions[i].work.at.pool.ids[key] == m.at.pool.ids[key]
  }

  ghost predicate AllAsked(m: Module) {
    forall key :: key in m.at.pool.ids ==> exists i: nat :: AskedBy(m, key, i)
  }

  /** The functions' ids begin where the scope's takes end. */
  ghost predicate FromScope(m: Module, first: nat) {
    Consecutive(m.counts, m.firsts, first) && Ascending(m, first) && Chained(m, first)
  }

  lemma FromScopeSnoc(m: Module, first: nat, f: Function)
    requires FromScope(m, first) && m.at.next <= f.after.next
    ensures FromScope(m.(functions := m.functions + [f], starts := m.starts + [m.at], at := f.after), first)
  {
    ChainedSnoc(m, first, f);
    AscendingSnoc(m, first, f);
  }

  lemma StartsUnderway(bodies: seq<Body>, signatures: seq<Signature>, counts: seq<nat>, firsts: seq<nat>, first: nat)
    requires |bodies| == |signatures| && Consecutive(counts, firsts, first) && InTurn(counts, firsts, first)
    ensures Underway(bodies, signatures, Module(counts, firsts, [], [], Cursor(EmptyTable(), first)), 0)
  {
    assert FromScope(Module(counts, firsts, [], [], Cursor(EmptyTable(), first)), first);
  }

  /** The module once its first `k` functions are emitted. */
  ghost predicate Underway(bodies: seq<Body>, signatures: seq<Signature>, m: Module, k: nat) {
    && |m.functions| == k && AllEmitted(bodies, signatures, m)
    && (exists first: nat :: FromScope(m, first))
    && Sound(m.at) && AllAsked(m)
  }

  method EmitOne(body: Body, s: Signature, literals: Pool, next: nat) returns (r: Result<Function, FunctionRefusal>)
    requires ValidSsa(body) && Sound(literals.Now(next))
    modifies literals
    ensures r.Success? <==> Accepted(body, s)
    ensures r.Failure? ==> RefusedFor(body, s, r.error)
    ensures r.Success? ==>
      r.value in Emissions(body, s, old(literals.Now(next))) && literals.Now(r.value.after.next) == r.value.after
    ensures r.Success? ==> next < r.value.after.next && Sound(r.value.after) && Grown(old(literals.Now(next)), r.value)
  {
    ghost var start := literals.Now(next);
    r := EmitFunction(body, s, literals, next);
    if r.Success? { FunctionGrows(body, s, start, r.value); }
  }

  /** A function's literals are those before it and those it asked for. */
  ghost predicate Grown(start: Cursor, f: Function) {
    Within(start, f.after) && f.after.pool == f.work.at.pool
  }

  lemma FunctionGrows(body: Body, s: Signature, start: Cursor, f: Function)
    requires Emits(body, s, start, f)
    ensures start.next < f.after.next && Sound(f.after) && Grown(start, f)
  {
    FunctionIsDisciplined(body, s, start, f);
    SoundLater(f.work.at, f.after.next);
    assert f.after == f.work.at.(next := f.after.next);
  }

  lemma AscendingSnoc(m: Module, first: nat, f: Function)
    requires Ascending(m, first) && m.at.next <= f.after.next
    ensures Ascending(m.(functions := m.functions + [f], starts := m.starts + [m.at], at := f.after), first)
  {
  }

  lemma AskedSnoc(m: Module, f: Function)
    requires |m.functions| == |m.starts| && AllAsked(m) && Grown(m.at, f)
    ensures AllAsked(m.(functions := m.functions + [f], starts := m.starts + [m.at], at := f.after))
  {
    var m' := m.(functions := m.functions + [f], starts := m.starts + [m.at], at := f.after);
    forall key | key in m'.at.pool.ids ensures exists i: nat :: AskedBy(m', key, i) {
      if key in m.at.pool.ids {
        var i: nat :| AskedBy(m, key, i);
        assert AskedBy(m', key, i);
      } else {
        assert AskedBy(m', key, |m.functions|);
      }
    }
  }

  lemma UnderwaySnoc(bodies: seq<Body>, signatures: seq<Signature>, m: Module, k: nat, f: Function)
    requires k < |bodies| && Underway(bodies, signatures, m, k)
    requires f in Emissions(bodies[k], signatures[k], m.at) && m.at.next < f.after.next && Sound(f.after) &&
      Grown(m.at, f)
    ensures Underway(bodies, signatures, m.(functions := m.functions + [f], starts := m.starts + [m.at], at := f.after),
      k + 1)
  {
    var first: nat :| FromScope(m, first);
    FromScopeSnoc(m, first, f);
    EmittedSnoc(bodies, signatures, m, f);
    AskedSnoc(m, f);
  }

  lemma EmittedSnoc(bodies: seq<Body>, signatures: seq<Signature>, m: Module, f: Function)
    requires AllEmitted(bodies, signatures, m) && |m.functions| < |bodies|
    requires f in Emissions(bodies[|m.functions|], signatures[|m.functions|], m.at)
    ensures AllEmitted(bodies, signatures,
      m.(functions := m.functions + [f], starts := m.starts + [m.at], at := f.after))
  {
  }

  /** The first `k` functions can be emitted. */
  ghost predicate AllAccepted(bodies: seq<Body>, signatures: seq<Signature>, k: nat)
    requires k <= |bodies| == |signatures|
  {
    forall i: nat :: i < k ==> Accepted(bodies[i], signatures[i])
  }

  /** The first function that cannot be emitted, and why. */
  ghost predicate FirstRefused(bodies: seq<Body>, signatures: seq<Signature>, i: nat, why: FunctionRefusal)
    requires |bodies| == |signatures|
  {
    i < |bodies| && ValidBody(bodies[i]) && AllAccepted(bodies, signatures, i) &&
      RefusedFor(bodies[i], signatures[i], why)
  }

  lemma OneMoreAccepted(bodies: seq<Body>, signatures: seq<Signature>, k: nat)
    requires k < |bodies| == |signatures| && AllAccepted(bodies, signatures, k) && Accepted(bodies[k], signatures[k])
    ensures AllAccepted(bodies, signatures, k + 1)
  {
  }

  lemma NotAllAccepted(bodies: seq<Body>, signatures: seq<Signature>, k: nat)
    requires k < |bodies| == |signatures| && !Accepted(bodies[k], signatures[k])
    ensures !AllAccepted(bodies, signatures, |bodies|)
  {
  }

  /** The loop over the ordered functions, position 0 being the entry point. */
  method CompileBodies(bodies: seq<Body>, signatures: seq<Signature>, counts: seq<nat>, firsts: seq<nat>, first: nat)
    returns (r: Result<Module, FunctionRefusal>)
    requires |bodies| == |signatures| && forall i: nat :: i < |bodies| ==> ValidSsa(bodies[i])
    requires Consecutive(counts, firsts, first) && InTurn(counts, firsts, first)
    ensures r.Success? <==> AllAccepted(bodies, signatures, |bodies|)
    ensures r.Failure? ==> exists i: nat :: FirstRefused(bodies, signatures, i, r.error)
    ensures r.Success? ==> r.value.counts == counts && Underway(bodies, signatures, r.value, |bodies|)
  {
    var literals := new Pool();
    r := Success(Module(counts, firsts, [], [], literals.Now(first)));
    StartsUnderway(bodies, signatures, counts, firsts, first);
    var k := 0;
    while k < |bodies|
      invariant 0 <= k <= |bodies| && r.Success? && r.value.counts == counts
      invariant Underway(bodies, signatures, r.value, k) && r.value.at == literals.Now(r.value.at.next)
      invariant AllAccepted(bodies, signatures, k)
    {
      var m := r.value;
      var one := EmitOne(bodies[k], signatures[k], literals, m.at.next);
      if one.Failure? {
        NotAllAccepted(bodies, signatures, k);
        assert FirstRefused(bodies, signatures, k, one.error);
        return Failure(one.error);
      }
      OneMoreAccepted(bodies, signatures, k);
      UnderwaySnoc(bodies, signatures, m, k, one.value);
      r := Success(m.(functions := m.functions + [one.value], starts := m.starts + [m.at], at := one.value.after));
      k := k + 1;
    }
  }

  /** `compile`: the scope's takes, then the functions, on one cursor and one pool. */
  method Compile(bodies: seq<Body>, signatures: seq<Signature>, shape: Shape)
    returns (r: Result<Module, FunctionRefusal>)
    requires |bodies| == |signatures| && forall i: nat :: i < |bodies| ==> ValidSsa(bodies[i])
    ensures r.Success? <==> AllAccepted(bodies, signatures, |bodies|)
    ensures r.Failure? ==> exists i: nat :: FirstRefused(bodies, signatures, i, r.error)
    ensures r.Success? ==> r.value.counts == ScopeCounts(shape) && Underway(bodies, signatures, r.value, |bodies|)
  {
    var counts := ScopeCounts(shape);
    var firsts, next := TakeScope(counts);
    r := CompileBodies(bodies, signatures, counts, firsts, next);
  }

  // ---- every definer of a module ----

  /** One of the scope's takes, a literal's declaration, or something a function defines. */
  datatype Name = ScopeName(take: nat, k: nat) | LiteralName(key: Key) | FunctionName(i: nat, t: Taken)

  ghost predicate IsNamed(m: Module, n: Name) {
    match n
    case ScopeName(i, k) => i < |m.counts| && i < |m.firsts| && k < m.counts[i]
    case LiteralName(key) => key in m.at.pool.ids
    case FunctionName(i, t) => i < |m.functions| && IsTaken(m.functions[i], t) && !(t.BodyOf? && t.d.ConstantOf?)
  }

  ghost function NamedId(m: Module, n: Name): nat
    requires IsNamed(m, n)
  {
    match n
    case ScopeName(i, k) => m.firsts[i] + k
    case LiteralName(key) => m.at.pool.ids[key]
    case FunctionName(i, t) => TakenId(m.functions[i], t)
  }

  lemma EmittedIsDisciplined(bodies: seq<Body>, signatures: seq<Signature>, m: Module, i: nat)
    requires AllEmitted(bodies, signatures, m) && i < |m.functions|
    ensures Disciplined(m.starts[i], m.functions[i])
  {
    assert m.functions[i] in Emissions(bodies[i], signatures[i], m.starts[i]);
    FunctionIsDisciplined(bodies[i], signatures[i], m.starts[i], m.functions[i]);
  }

  /** What a name is in the function it comes from: a literal is its first asker's. */
  ghost predicate NameOf(m: Module, n: Name, i: nat, t: Taken)
    requires IsNamed(m, n)
  {
    && i < |m.functions| == |m.starts| && IsTaken(m.functions[i], t) && TakenId(m.functions[i], t) == NamedId(m, n)
    && m.starts[i].next <= NamedId(m, n) < m.functions[i].after.next
    && (if n.LiteralName? then t == BodyOf(ConstantOf(n.key)) else n == FunctionName(i, t))
  }

  lemma AskerDefines(m: Module, key: Key, i: nat)
    requires AskedBy(m, key, i) && Disciplined(m.starts[i], m.functions[i])
    ensures NameOf(m, LiteralName(key), i, BodyOf(ConstantOf(key)))
  {
    OwnTaken(m.starts[i], m.functions[i], BodyOf(ConstantOf(key)));
  }

  lemma LiteralIsAFunctions(bodies: seq<Body>, signatures: seq<Signature>, m: Module, key: Key) returns (i: nat)
    requires AllEmitted(bodies, signatures, m) && key in m.at.pool.ids && exists i: nat :: AskedBy(m, key, i)
    ensures NameOf(m, LiteralName(key), i, BodyOf(ConstantOf(key)))
  {
    i :| AskedBy(m, key, i);
    EmittedIsDisciplined(bodies, signatures, m, i);
    AskerDefines(m, key, i);
  }

  lemma OwnTaken(start: Cursor, f: Function, t: Taken)
    requires Disciplined(start, f) && IsTaken(f, t) && !FromBefore(start, t)
    ensures start.next <= TakenId(f, t) < f.after.next
  {
  }

  lemma NameIsAFunctions(bodies: seq<Body>, signatures: seq<Signature>, m: Module, n: Name) returns (i: nat, t: Taken)
    requires AllEmitted(bodies, signatures, m) && AllAsked(m) && IsNamed(m, n) && !n.ScopeName?
    ensures NameOf(m, n, i, t)
  {
    match n {
      case LiteralName(key) =>
        i := LiteralIsAFunctions(bodies, signatures, m, key);
        t := BodyOf(ConstantOf(key));
      case FunctionName(j, s) =>
        i, t := j, s;
        EmittedIsDisciplined(bodies, signatures, m, i);
        OwnTaken(m.starts[i], m.functions[i], t);
    }
  }

  lemma NamesApart(m: Module, first: nat, a: Name, i: nat, s: Taken, b: Name, j: nat, t: Taken)
    requires Ascending(m, first) && IsNamed(m, a) && IsNamed(m, b) && NameOf(m, a, i, s) && NameOf(m, b, j, t)
    requires Disciplined(m.starts[i], m.functions[i])
    ensures NamedId(m, a) == NamedId(m, b) ==> a == b
  {
    if NamedId(m, a) == NamedId(m, b) {
      assert i == j;
      SameTaken(m.starts[i], m.functions[i], s, t);
    }
  }

  lemma SameTaken(start: Cursor, f: Function, s: Taken, t: Taken)
    requires Disciplined(start, f) && IsTaken(f, s) && IsTaken(f, t) && TakenId(f, s) == TakenId(f, t)
    ensures s == t
  {
  }

  lemma FunctionNamesApart(bodies: seq<Body>, signatures: seq<Signature>, m: Module, first: nat, a: Name, b: Name)
    requires AllEmitted(bodies, signatures, m) && AllAsked(m) && Ascending(m, first)
    requires IsNamed(m, a) && IsNamed(m, b) && !a.ScopeName? && !b.ScopeName?
    ensures NamedId(m, a) == NamedId(m, b) ==> a == b
  {
    var i, s := NameIsAFunctions(bodies, signatures, m, a);
    var j, t := NameIsAFunctions(bodies, signatures, m, b);
    EmittedIsDisciplined(bodies, signatures, m, i);
    NamesApart(m, first, a, i, s, b, j, t);
  }

  lemma NamesAreApart(bodies: seq<Body>, signatures: seq<Signature>, m: Module, first: nat, a: Name, b: Name)
    requires AllEmitted(bodies, signatures, m) && AllAsked(m) && Consecutive(m.counts, m.firsts, first) &&
      Ascending(m, first)
    requires IsNamed(m, a) && IsNamed(m, b)
    ensures 0 < NamedId(m, a) < m.at.next
    ensures NamedId(m, a) == NamedId(m, b) ==> a == b
  {
    Located(bodies, signatures, m, first, a);
    Located(bodies, signatures, m, first, b);
    if !a.ScopeName? && !b.ScopeName? {
      FunctionNamesApart(bodies, signatures, m, first, a, b);
    } else if a.ScopeName? && b.ScopeName? {
      ScopeApart(m, first, a, b);
    }
  }

  /** Across a whole module each id is defined by one instruction, and every id is below the header's bound. */
  lemma NoIdDefinedTwice(bodies: seq<Body>, signatures: seq<Signature>, m: Module, k: nat, a: Name, b: Name)
    requires Underway(bodies, signatures, m, k) && IsNamed(m, a) && IsNamed(m, b)
    ensures 0 < NamedId(m, a) < m.at.next
    ensures NamedId(m, a) == NamedId(m, b) ==> a == b
  {
    var first: nat :| FromScope(m, first);
    NamesAreApart(bodies, signatures, m, first, a, b);
  }

  /** The scope's ids come before every function's. */
  lemma Located(bodies: seq<Body>, signatures: seq<Signature>, m: Module, first: nat, n: Name)
    requires AllEmitted(bodies, signatures, m) && AllAsked(m) && IsNamed(m, n)
    requires Consecutive(m.counts, m.firsts, first) && Ascending(m, first)
    ensures if n.ScopeName? then 0 < NamedId(m, n) < first else first <= NamedId(m, n) < m.at.next
    ensures 0 < first <= m.at.next
  {
    if n.ScopeName? {
      ScopeApart(m, first, n, n);
    } else {
      var i, t := NameIsAFunctions(bodies, signatures, m, n);
    }
  }

  lemma ScopeApart(m: Module, first: nat, a: Name, b: Name)
    requires Consecutive(m.counts, m.firsts, first) && IsNamed(m, a) && IsNamed(m, b) && a.ScopeName? && b.ScopeName?
    ensures 0 < NamedId(m, a) < first
    ensures NamedId(m, a) == NamedId(m, b) ==> a == b
  {
  }
}
