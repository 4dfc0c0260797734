/** A chain: one kernel applied `links` times, between two buffers it swaps. */
module Chains {
  import opened Options
  import opened Scalars
  import opened Sums
  import opened Ledger
  import opened DeviceMemory
  import Launch
  import PushConstants

  const MAX_DISPATCHES: nat := 64

  type Elements = seq<int>

  /**
  What a chained launch is: the class its module computes in, if it has one, its domain's leaves and the launch's own
  scalars, its slots, and its kernel, a function of its input and of what its output's buffer held.
   */
  datatype Linear = Linear(
    root: Option<Class>,
    leaves: seq<Class>,
    given: seq<PushConstants.Leaf>,
    inputs: nat,
    outputs: nat,
    inputClass: Class,
    outputClass: Class,
    width: nat,
    stages: bool,
    act: (Elements, Elements) -> Elements)

  /**
  What the device allows and the driver answers: the largest block, whether a pipeline is built, and the three
  buffers.
   */
  datatype Answers = Answers(max: nat, pipeline: bool, buffers: (bool, bool, bool), finishes: bool)

  datatype ChainError =
    | TooManyDispatches(wanted: nat)
    | NotLinear(inputs: nat, outputs: nat)
    | NoModuleClass
    | CrossesClasses(input: Class, output: Class)
    | Scalars(block: PushConstants.BlockError)
    | NoPipeline
    | CannotLaunch(why: Launch.LaunchError)
    | EmptyRun
    | Driver

  /** One recorded link: the handle it reads and the handle it writes. */
  datatype Link = Link(source: nat, target: nat)

  /** The buffer link `i` writes: the two take turns. */
  function Pong(i: nat, first: nat, second: nat): nat {
    if i % 2 == 0 then first else second
  }

  function LinkOf(i: nat, source: nat, first: nat, second: nat): Link {
    Link(if i == 0 then source else Pong(i - 1, first, second), Pong(i, first, second))
  }

  /** The recording loop: each link reads what the one before it wrote. */
  method RecordLinks(links: nat, source: nat, first: nat, second: nat) returns (recorded: seq<Link>, last: nat)
    requires links > 0
    ensures |recorded| == links && forall i :: 0 <= i < links ==> recorded[i] == LinkOf(i, source, first, second)
    ensures last == Pong(links - 1, first, second) == recorded[links - 1].target && recorded[0] == Link(source, first)
    ensures forall i :: 0 < i < links ==>
      recorded[i] == Link(recorded[i - 1].target, if recorded[i - 1].target == first then second else first)
  {
    recorded := [];
    last := source;
    var into, onto := first, second;
    for step := 0 to links
      invariant |recorded| == step && forall i :: 0 <= i < step ==> recorded[i] == LinkOf(i, source, first, second)
      invariant last == (if step == 0 then source else Pong(step - 1, first, second))
      invariant into == Pong(step, first, second) && onto == Pong(step + 1, first, second)
    {
      recorded := recorded + [Link(last, into)];
      last := into;
      into, onto := onto, into;
    }
  }

  /** No link reads the buffer it writes. */
  lemma NoLinkReadsWhatItWrites(i: nat, source: nat, first: nat, second: nat)
    requires source != first && source != second && first != second
    ensures LinkOf(i, source, first, second).source != LinkOf(i, source, first, second).target
  {
  }

  // ---- the device ----

  function ExecuteLinks(act: (Elements, Elements) -> Elements, m: Memory, links: seq<Link>): Memory {
    if links == [] then m
    else
      var before := ExecuteLinks(act, m, links[..|links| - 1]);
      var link := links[|links| - 1];
      before[link.target := act(Content(before, link.source), Content(before, link.target))]
  }

  /**
  The kernel's first `count` results are a function of its input's first `count` elements: surplus lanes do not write.
   */
  ghost predicate ReadsBelow(act: (Elements, Elements) -> Elements, count: nat) {
    && (forall x, s :: count <= |x| ==> count <= |act(x, s)|)
    && (forall x, y, s, t :: count <= |x| && count <= |y| && x[..count] == y[..count] ==>
         SameBelow(act(x, s), act(y, t), count))
  }

  ghost predicate SameBelow(x: Elements, y: Elements, count: nat) {
    count <= |x| && count <= |y| && x[..count] == y[..count]
  }

  /** The input as the first link sees it: zeros past what the host holds. */
  function Extended(input: Elements, size: nat): (r: Elements)
    ensures size <= |r| && |input| <= |r| && r[..|input|] == input && forall i :: |input| <= i < |r| ==> r[i] == 0
  {
    input + Zeros(if |input| < size then size - |input| else 0)
  }

  /** The kernel applied `n` times. */
  function Iterate(act: (Elements, Elements) -> Elements, x: Elements, n: nat): Elements {
    if n == 0 then x else act(Iterate(act, x, n - 1), [])
  }

  lemma {:induction false} IterateBelow(act: (Elements, Elements) -> Elements, x: Elements, y: Elements, count: nat,
      n: nat)
    requires ReadsBelow(act, count) && SameBelow(x, y, count)
    ensures SameBelow(Iterate(act, x, n), Iterate(act, y, n), count)
  {
    if n > 0 { IterateBelow(act, x, y, count, n - 1); }
  }

  /**
  After `k` links the buffer the last one wrote holds the kernel applied `k` times to the extended input, below the
  count.
   */
  lemma {:induction false} LinksIterate(act: (Elements, Elements) -> Elements, m: Memory, links: seq<Link>, source: nat,
      first: nat, second: nat, count: nat, k: nat)
    requires ReadsBelow(act, count) && count <= |Content(m, source)|
    requires source != first && source != second && first != second
    requires 0 < k <= |links| && forall i :: 0 <= i < |links| ==> links[i] == LinkOf(i, source, first, second)
    ensures SameBelow(Content(ExecuteLinks(act, m, links[..k]), Pong(k - 1, first, second)),
      Iterate(act, Content(m, source), k), count)
    decreases k
  {
    assert links[..k][..k - 1] == links[..k - 1] && links[..k][k - 1] == LinkOf(k - 1, source, first, second);
    var before := ExecuteLinks(act, m, links[..k - 1]);
    if k == 1 {
      assert links[..0] == [];
      assert SameBelow(Content(before, source), Iterate(act, Content(m, source), 0), count);
    } else {
      LinksIterate(act, m, links, source, first, second, count, k - 1);
    }
    var link := links[k - 1];
    assert Iterate(act, Content(m, source), k) == act(Iterate(act, Content(m, source), k - 1), []);
    assert SameBelow(act(Content(before, link.source), Content(before, link.target)),
      act(Iterate(act, Content(m, source), k - 1), []), count);
  }

  // ---- the whole run ----

  function MaxOf(a: nat, b: nat): nat {
    if a < b then b else a
  }

  /** What settling leaves in the books: the spare and the source given back, the last link's output resident. */
  ghost function Settled(b: Books, source: nat, spare: nat, last: nat): Books
    requires |b.rows| == 4
  {
    Next(Next(Next(b, Recycle(spare)), Issue(last)), Recycle(source))
  }

  /** What a refusal rests on. */
  ghost predicate Cause(l: Linear, count: nat, links: nat, a: Answers, e: ChainError)
    requires l.width > 0
  {
    match e
    case TooManyDispatches(wanted) => wanted == links && (links == 0 || links > 64)
    case NotLinear(inputs, outputs) =>
      inputs == l.inputs && outputs == l.outputs && !(|l.leaves| == 2 && inputs == 1 && outputs == 1)
    case NoModuleClass => l.root.None?
    case CrossesClasses(input, output) => input == l.inputClass != output == l.outputClass
    case Scalars(why) => l.root.Some? && PushConstants.FirstCause(l.root.value, l.leaves, l.given, a.max, why)
    case NoPipeline => !a.pipeline
    case CannotLaunch(NotAWholeWorkgroup(n, width)) => l.stages && n == count && width == l.width && n % width != 0
    case EmptyRun => count == 0
    case Driver => false
  }

  /** Which check a refusal comes from. */
  function Check(e: ChainError): nat {
    match e
    case TooManyDispatches(_) => 0
    case NotLinear(_, _) => 1
    case NoModuleClass => 2
    case CrossesClasses(_, _) => 3
    case Scalars(_) => 4
    case NoPipeline => 5
    case CannotLaunch(_) => 6
    case EmptyRun => 7
    case Driver => 8
  }

  ghost predicate FirstCause(l: Linear, count: nat, links: nat, a: Answers, e: ChainError)
    requires l.width > 0
  {
    Cause(l, count, links, a, e) && forall f :: Cause(l, count, links, a, f) ==> Check(e) <= Check(f)
  }

  /** Every buffer the driver is asked for is made, and the submission finishes in time. */
  predicate AllAnswer(a: Answers) {
    a.buffers == (true, true, true) && a.finishes
  }

  /** The checks a chain makes before it takes anything, in order. */
  function Refused(l: Linear, count: nat, links: nat, a: Answers): Option<ChainError>
    requires l.width > 0
  {
    if links == 0 || links > MAX_DISPATCHES then Some(TooManyDispatches(links))
    else if |l.leaves| != 2 || l.inputs != 1 || l.outputs != 1 then Some(NotLinear(l.inputs, l.outputs))
    else if l.root.None? then Some(NoModuleClass)
    else if l.inputClass != l.outputClass then Some(CrossesClasses(l.inputClass, l.outputClass))
    else if PushConstants.Refused(l.root.value, l.leaves, l.given, a.max).Some? then
      Some(Scalars(PushConstants.Refused(l.root.value, l.leaves, l.given, a.max).value))
    else if !a.pipeline then Some(NoPipeline)
    else
      var groups := Launch.Workgroups(count, l.width, l.stages);
      if groups.Failure? then Some(CannotLaunch(groups.error))
      else if Launch.Padded(count, l.width) == 0 then Some(EmptyRun)
      else None
  }

  /** A refusal is the first that has a cause, and there is none when nothing has. */
  lemma RefusedExactly(l: Linear, count: nat, links: nat, a: Answers)
    requires l.width > 0
    ensures var refused := Refused(l, count, links, a);
      if refused.Some? then FirstCause(l, count, links, a, refused.value)
      else forall e :: !Cause(l, count, links, a, e)
  {
    var refused := Refused(l, count, links, a);
    Launch.PaddingIsShort(count, l.width);
    if |l.leaves| == 2 && l.root.Some? { ScalarsRefusedExactly(l.root.value, l.leaves, l.given, count, a.max); }
    if refused.Some? {
      assert Cause(l, count, links, a, refused.value);
    }
  }

  lemma ScalarsRefusedExactly(root: Class, leaves: seq<Class>, given: seq<PushConstants.Leaf>, count: nat, max: nat)
    requires |leaves| == 2
    ensures var refused := PushConstants.Refused(root, leaves, given, max);
      if refused.Some? then PushConstants.FirstCause(root, leaves, given, max, refused.value)
      else forall why :: !PushConstants.FirstCause(root, leaves, given, max, why)
  {
    assert PushConstants.Members(leaves) == [leaves[0]];
    PushConstants.FilledWithoutCause(root, leaves, given, count, max);
    forall why | PushConstants.Cause(root, leaves, given, max, why)
      ensures var refused := PushConstants.Refused(root, leaves, given, max);
        refused.Some? && PushConstants.Check(refused.value) <= PushConstants.Check(why)
    {
      PushConstants.RefusedForItsCause(root, leaves, given, count, max, why);
    }
  }

  /** An allocation that answers: with a buffer nobody held, pooled or new, which the host now holds. */
  ghost predicate Gives(before: Books, after: Books, padded: nat, kind: Class, tag: Tag, ok: bool, b: Buffer) {
    && |before.rows| == 4 && after == Allocated(before, padded, kind, tag, ok)
    && b == Buffer(HandleFor(before, (padded, kind)), padded, kind, tag)
    && Holding(before, after, b)
  }

  /** The host holds one buffer more, one it did not hold. */
  ghost predicate Holding(before: Books, after: Books, b: Buffer) {
    b.handle !in before.held && after.held == before.held[b.handle := b] && after.resident == before.resident
  }

  /** The host holds what it did, and the same is resident. */
  ghost predicate AsBefore(before: Books, after: Books) {
    after.held == before.held && after.resident == before.resident
  }

  method TakeOne(context: Context, padded: nat, kind: Class, tag: Tag, ok: bool) returns (r: Option<Buffer>)
    requires context.Valid()
    modifies context
    ensures context.Valid()
    ensures r.None? ==> !ok && AsBefore(old(context.books), context.books)
    ensures r.Some? ==> Gives(old(context.books), context.books, padded, kind, tag, ok, r.value)
  {
    r := context.Allocate(padded, kind, tag, ok);
  }

  /** Nobody has the buffer any more: it is in the pool, or the driver has it back. */
  ghost predicate GivenBack(b: Books, h: nat) {
    h !in b.place || b.place[h].InPool?
  }

  /** The buffer is where the context cannot reach it: neither held nor given back. */
  ghost predicate IsDropped(b: Books, h: nat) {
    h in b.place && b.place[h] == Dropped
  }

  lemma RecycledPlace(b: Books, h: nat)
    requires |b.rows| == 4 && h in b.held && b.held[h].handle == h
    ensures var r := Recycled(b, h);
      GivenBack(r, h) && forall x :: x != h && IsDropped(b, x) ==> IsDropped(r, x)
  {
  }

  lemma ForgottenPlace(b: Books, h: nat)
    requires h in b.held && b.held[h].handle == h
    ensures IsDropped(Forgotten(b, h), h)
    ensures forall x :: IsDropped(b, x) ==> IsDropped(Forgotten(b, h), x)
  {
  }

  lemma HeldAreTheirs(b: Books)
    requires Reached(b)
    ensures forall h :: h in b.held ==> b.held[h].handle == h
  {
    ReachedHolds(b);
  }

  method PutAway(context: Context, ghost before: Books, buffer: Buffer)
    requires context.Valid() && Holding(before, context.books, buffer)
    modifies context
    ensures context.Valid() && AsBefore(before, context.books) && GivenBack(context.books, buffer.handle)
  {
    HeldAreTheirs(context.books);
    ReachedHolds(context.books);
    RecycledPlace(context.books, buffer.handle);
    context.Recycle(buffer);
  }

  ghost method LetGo(context: Context, before: Books, buffer: Buffer)
    requires context.Valid() && Holding(before, context.books, buffer)
    modifies context
    ensures context.Valid() && AsBefore(before, context.books) && IsDropped(context.books, buffer.handle)
  {
    HeldAreTheirs(context.books);
    ForgottenPlace(context.books, buffer.handle);
    context.Forget(buffer);
  }

  /** The two output buffers; `between` are the books after the first, which is dropped when there is no second. */
  method TakePair(context: Context, padded: nat, kind: Class, ok: (bool, bool))
    returns (r: Option<(Buffer, Buffer)>, ghost between: Books)
    requires context.Valid()
    modifies context
    ensures context.Valid()
    ensures r.None? ==> ok != (true, true) && AsBefore(old(context.books), context.books)
    ensures r.None? && ok.0 ==> IsDropped(context.books, HandleFor(old(context.books), (padded, kind)))
    ensures r.Some? ==>
      Gives(old(context.books), between, padded, kind, Output, ok.0, r.value.0) &&
      Gives(between, context.books, padded, kind, Output, ok.1, r.value.1)
  {
    var first := TakeOne(context, padded, kind, Output, ok.0);
    between := context.books;
    if first.None? { return None, between; }
    var second := TakeOne(context, padded, kind, Output, ok.1);
    if second.None? {
      LetGo(context, old(context.books), first.value);
      return None, between;
    }
    return Some((first.value, second.value)), between;
  }

  /** The three buffers a chain takes: the source is given back when the outputs cannot be had. */
  method TakeBuffers(context: Context, size: nat, padded: nat, kind: Class, ok: (bool, bool, bool))
    returns (r: Option<(Buffer, Buffer, Buffer)>, ghost one: Books, ghost two: Books)
    requires context.Valid()
    modifies context
    ensures context.Valid()
    ensures r.None? ==> ok != (true, true, true) && AsBefore(old(context.books), context.books)
    ensures r.None? && ok.0 ==> GivenBack(context.books, HandleFor(old(context.books), (size, kind)))
    ensures r.Some? ==>
      && Gives(old(context.books), one, size, kind, Chain, ok.0, r.value.0)
      && Gives(one, two, padded, kind, Output, ok.1, r.value.1)
      && Gives(two, context.books, padded, kind, Output, ok.2, r.value.2)
  {
    var source := TakeOne(context, size, kind, Chain, ok.0);
    one := context.books;
    if source.None? { return None, one, one; }
    var pair, between := TakePair(context, padded, kind, (ok.1, ok.2));
    two := between;
    if pair.None? {
      PutAway(context, old(context.books), source.value);
      return None, one, two;
    }
    return Some((source.value, pair.value.0, pair.value.1)), one, two;
  }

  /** The spare buffer and the source go back, the last link's output becomes resident. */
  method Settle(context: Context, source: Buffer, spare: Buffer, last: Buffer) returns (id: nat)
    requires context.Valid() && context.Holds(source) && context.Holds(spare) && context.Holds(last)
    requires source.handle != spare.handle && source.handle != last.handle && spare.handle != last.handle
    modifies context
    ensures context.Valid() && id == old(context.nextId) && |old(context.books).rows| == 4
    ensures context.books == Settled(old(context.books), source.handle, spare.handle, last.handle)
    ensures id in context.resident && context.resident[id] == last
    ensures context.books.held == old(context.books).held - {spare.handle} - {last.handle} - {source.handle}
  {
    context.Recycle(spare);
    ReachedNext(context.books, Issue(last.handle));
    context.IssueOne(last);
    id := context.nextId - 1;
    context.Recycle(source);
  }

  lemma RecycledHeld(b: Books, h: nat)
    requires |b.rows| == 4 && h in b.held && b.held[h].handle == h
    ensures var r := Next(b, Recycle(h));
      r.held == b.held - {h} && r.nextId == b.nextId && r.resident == b.resident && r.astray == b.astray &&
      GivenBack(r, h) && forall x :: x != h && GivenBack(b, x) ==> GivenBack(r, x)
  {
  }

  lemma IssuedHeld(b: Books, h: nat)
    requires |b.rows| == 4 && h in b.held && b.held[h].handle == h
    ensures var r := Next(b, Issue(h));
      r.held == b.held - {h} && r.resident == b.resident[b.nextId := b.held[h]] && r.astray == b.astray &&
      forall x :: x != h && GivenBack(b, x) ==> GivenBack(r, x)
  {
  }

  /**
  Settling leaves the host holding none of the three: the source and the spare are given back and nothing goes astray,
  and only the last link's output becomes resident.
   */
  lemma SettledHoldsNone(b: Books, source: nat, spare: nat, last: nat)
    requires |b.rows| == 4 && source in b.held && spare in b.held && last in b.held
    requires forall h :: h in b.held ==> b.held[h].handle == h
    requires source != spare && source != last && spare != last
    ensures var r := Settled(b, source, spare, last);
      && r.held == b.held - {spare} - {last} - {source} && r.resident == b.resident[b.nextId := b.held[last]]
      && GivenBack(r, source) && GivenBack(r, spare) && r.astray == b.astray
  {
    RecycledHeld(b, spare);
    IssuedHeld(Next(b, Recycle(spare)), last);
    RecycledHeld(Next(Next(b, Recycle(spare)), Issue(last)), source);
  }

  /** What the device does with a recorded chain: the upload, then the links. */
  function Device(l: Linear, m: Memory, input: Elements, size: nat, source: nat, links: seq<Link>): Memory {
    ExecuteLinks(l.act, m[source := Extended(input, size)], links)
  }

  /** The result below the count is the kernel iterated over the zero-extended input. */
  lemma ChainComputes(l: Linear, m: Memory, input: Elements, size: nat, links: seq<Link>, source: nat, first: nat,
      second: nat, count: nat)
    requires ReadsBelow(l.act, count) && count <= size && |links| > 0
    requires source != first && source != second && first != second
    requires forall i :: 0 <= i < |links| ==> links[i] == LinkOf(i, source, first, second)
    ensures SameBelow(Content(Device(l, m, input, size, source, links), Pong(|links| - 1, first, second)),
      Iterate(l.act, Extended(input, size), |links|), count)
  {
    assert links[..|links|] == links;
    LinksIterate(l.act, m[source := Extended(input, size)], links, source, first, second, count, |links|);
  }

  /** One chain on the device: its memory and input before, and the buffers its links were recorded on. */
  datatype Ran = Ran(m: Memory, input: Elements, size: nat, links: seq<Link>, source: nat, first: nat, second: nat)

  ghost predicate RanOver(r: Ran, count: nat) {
    && count <= r.size && |r.links| > 0
    && r.source != r.first && r.source != r.second && r.first != r.second
    && forall i :: 0 <= i < |r.links| ==> r.links[i] == LinkOf(i, r.source, r.first, r.second)
  }

  function ResultOf(l: Linear, r: Ran): Elements
    requires |r.links| > 0
  {
    Content(Device(l, r.m, r.input, r.size, r.source, r.links), Pong(|r.links| - 1, r.first, r.second))
  }

  /**
  A chain's first `count` results depend on the first `count` elements of its input alone: not on what is past them,
  nor on which buffers the pool gave it, nor on what those held.
   */
  lemma ResultsFollowTheInput(l: Linear, count: nat, one: Ran, two: Ran)
    requires ReadsBelow(l.act, count) && RanOver(one, count) && RanOver(two, count) && |one.links| == |two.links|
    requires SameBelow(Extended(one.input, one.size), Extended(two.input, two.size), count)
    ensures SameBelow(ResultOf(l, one), ResultOf(l, two), count)
  {
    ChainComputes(l, one.m, one.input, one.size, one.links, one.source, one.first, one.second, count);
    ChainComputes(l, two.m, two.input, two.size, two.links, two.source, two.first, two.second, count);
    IterateBelow(l.act, Extended(one.input, one.size), Extended(two.input, two.size), count, |one.links|);
  }

  /** A failed wait: the source is given back, the outputs are dropped. */
  method GiveUp(context: Context, source: Buffer, first: Buffer, second: Buffer)
    requires context.Valid() && context.Holds(source) && context.Holds(first) && context.Holds(second)
    requires source.handle != first.handle && source.handle != second.handle && first.handle != second.handle
    modifies context
    ensures context.Valid() &&
      context.books.held == old(context.books).held - {first.handle} - {second.handle} - {source.handle}
    ensures context.resident == old(context.resident)
    ensures GivenUp(context.books, source.handle, first.handle, second.handle)
  {
    HeldAreTheirs(context.books);
    ForgottenPlace(context.books, first.handle);
    context.Forget(first);
    HeldAreTheirs(context.books);
    ForgottenPlace(context.books, second.handle);
    context.Forget(second);
    HeldAreTheirs(context.books);
    ReachedHolds(context.books);
    RecycledPlace(context.books, source.handle);
    context.Recycle(source);
  }

  /** After a failed wait the source is given back though it may still be in use, and nobody has the outputs. */
  ghost predicate GivenUp(b: Books, source: nat, first: nat, second: nat) {
    GivenBack(b, source) && IsDropped(b, first) && IsDropped(b, second)
  }

  /** After the wait: the last link's output becomes resident, the other output and the source go back. */
  method Finish(context: Context, source: Buffer, first: Buffer, second: Buffer, last: nat) returns (id: nat)
    requires context.Valid() && context.Holds(source) && context.Holds(first) && context.Holds(second)
    requires source.handle != first.handle && source.handle != second.handle && first.handle != second.handle
    requires last == first.handle || last == second.handle
    modifies context
    ensures context.Valid() && id == old(context.nextId) && id in context.resident &&
      context.resident[id].handle == last
    ensures |old(context.books).rows| == 4
    ensures context.books ==
      Settled(old(context.books), source.handle, if last == first.handle then second.handle else first.handle, last)
    ensures context.books.held == old(context.books).held - {first.handle} - {second.handle} - {source.handle}
  {
    ghost var held := context.books.held;
    if last == first.handle {
      id := Settle(context, source, second, first);
      SameGone(held, first.handle, second.handle, source.handle);
    } else {
      id := Settle(context, source, first, second);
    }
  }

  lemma SameGone(held: map<nat, Buffer>, a: nat, b: nat, c: nat)
    ensures held - {b} - {a} - {c} == held - {a} - {b} - {c}
  {
  }

  /** Record, run and settle, on buffers already taken. */
  method RunTaken(context: Context, l: Linear, input: Elements, count: nat, links: nat, m: Memory, size: nat,
      source: Buffer, first: Buffer, second: Buffer)
    returns (id: nat, after: Memory)
    requires context.Valid() && context.Holds(source) && context.Holds(first) && context.Holds(second)
    requires source.handle != first.handle && source.handle != second.handle && first.handle != second.handle
    requires 0 < links && ReadsBelow(l.act, count) && count <= size
    modifies context
    ensures context.Valid() && id == old(context.nextId) && id in context.resident && |old(context.books).rows| == 4
    ensures SameBelow(Content(after, context.resident[id].handle), Iterate(l.act, Extended(input, size), links), count)
    ensures context.books ==
      Settled(old(context.books), source.handle, Pong(links, first.handle, second.handle),
        Pong(links - 1, first.handle, second.handle))
    ensures context.books.held == old(context.books).held - {first.handle} - {second.handle} - {source.handle}
  {
    var recorded, last := RecordLinks(links, source.handle, first.handle, second.handle);
    after := Device(l, m, input, size, source.handle, recorded);
    ChainComputes(l, m, input, size, recorded, source.handle, first.handle, second.handle, count);
    assert (if last == first.handle then second.handle else first.handle) == Pong(links, first.handle, second.handle);
    assert SameBelow(Content(after, last), Iterate(l.act, Extended(input, size), links), count);
    id := Finish(context, source, first, second, last);
  }

  /** Three buffers taken are three, and given up they leave what was held before. */
  lemma TakenAndGone(before: map<nat, Buffer>, held: map<nat, Buffer>, source: Buffer, first: Buffer, second: Buffer)
    requires source.handle !in before && first.handle !in before[source.handle := source]
    requires second.handle !in before[source.handle := source][first.handle := first]
    requires held == before[source.handle := source][first.handle := first][second.handle := second]
    ensures held - {first.handle} - {second.handle} - {source.handle} == before
    ensures source.handle != first.handle && source.handle != second.handle && first.handle != second.handle
    ensures source.handle in held && held[source.handle] == source
    ensures first.handle in held && held[first.handle] == first && second.handle in held &&
      held[second.handle] == second
  {
  }

  lemma ExtendedBelow(input: Elements, size: nat, count: nat)
    requires count <= size
    ensures SameBelow(Extended(input, size), Extended(input, count), count)
  {
    var x, y := Extended(input, size), Extended(input, count);
    forall i | 0 <= i < count ensures x[i] == y[i] {
      if i < |input| { assert x[..|input|][i] == y[..|input|][i]; }
    }
  }

  /** Some whole workgroups, enough for a count and less than one more. */
  ghost predicate WholeLaunch(n: nat, count: nat, width: nat) {
    count <= n < count + width && exists groups: nat :: n == groups * width
  }

  /**
  The buffers a chain used, of its class: the outputs hold a whole launch, and the source that and all the host holds,
  whichever is more.
   */
  ghost predicate LargeEnough(used: (Buffer, Buffer, Buffer), input: Elements, count: nat, width: nat, kind: Class) {
    && WholeLaunch(used.1.padded, count, width) && used.2.padded == used.1.padded
    && used.0.padded == (if |input| > used.1.padded then |input| else used.1.padded)
    && used.0.kind == used.1.kind == used.2.kind == kind && used.0.tag == Chain && used.1.tag == used.2.tag == Output
  }

  /** Only the buffer the last link wrote is resident; the source and the other are given back, and nothing is lost. */
  ghost predicate Left(taken: Books, now: Books, used: (Buffer, Buffer, Buffer), links: nat, id: nat) {
    var (last, spare) := if links % 2 == 1 then (used.1, used.2) else (used.2, used.1);
    && now.resident == taken.resident[id := last] && GivenBack(now, used.0.handle) && GivenBack(now, spare.handle)
    && now.astray == taken.astray
  }

  /**
   * `run_chain`: refused for the first cause there is, with the books untouched; failed by the driver only when it
   * did not answer; or one resident whose first `count` elements are the kernel applied `links` times to the input,
   * zeros past its end. `taken` are the books once the buffers were taken. However it ends, the host holds what it
   * held before.
   */
  method RunChain(context: Context, l: Linear, input: Elements, count: nat, links: nat, m: Memory, a: Answers)
    returns (r: Result<nat, ChainError>, block: seq<int>, after: Memory, ghost taken: Books,
      ghost used: Option<(Buffer, Buffer, Buffer)>)
    requires context.Valid() && l.width > 0 && ReadsBelow(l.act, count)
    modifies context
    ensures context.Valid() && context.books.held == old(context.books).held
    ensures r.Failure? && r.error != Driver ==>
      FirstCause(l, count, links, a, r.error) && context.books == old(context.books)
    ensures r.Success? || r == Failure(Driver) ==> forall e :: !Cause(l, count, links, a, e)
    ensures r == Failure(Driver) ==> !AllAnswer(a)
    ensures r == Failure(Driver) && used.Some? ==>
      GivenUp(context.books, used.value.0.handle, used.value.1.handle, used.value.2.handle)
    ensures r.Success? ==> l.root.Some? && PushConstants.Pushes(block, l.root.value, l.leaves, l.given, count)
    ensures r.Success? ==>
      r.value in context.resident &&
      SameBelow(Content(after, context.resident[r.value].handle), Iterate(l.act, Extended(input, count), links), count)
    ensures r.Success? ==>
      used.Some? && LargeEnough(used.value, input, count, l.width, l.inputClass) &&
        Left(taken, context.books, used.value, links, r.value)
  {
    block, after, taken, used := [], m, context.books, None;
    RefusedExactly(l, count, links, a);
    var refused := Refused(l, count, links, a);
    if refused.Some? {
      assert Cause(l, count, links, a, refused.value);
      return Failure(refused.value), block, after, taken, used;
    }
    block := PushedBlock(l, count, a.max);
    var padded := Launch.Padded(count, l.width);
    Launch.PaddingIsShort(count, l.width);
    var size := MaxOf(padded, |input|);
    assert WholeLaunch(padded, count, l.width) by { assert padded == Launch.DivCeil(count, l.width) * l.width; }
    var buffers, one, two := TakeBuffers(context, size, padded, l.outputClass, a.buffers);
    if buffers.None? { return Failure(Driver), block, after, taken, used; }
    var (source, first, second) := buffers.value;
    TakenAndGone(old(context.books).held, context.books.held, source, first, second);
    taken, used := context.books, Some(buffers.value);
    if !a.finishes {
      GiveUp(context, source, first, second);
      return Failure(Driver), block, after, taken, used;
    }
    var id, memory := RunTaken(context, l, input, count, links, m, size, source, first, second);
    SettledLeaves(taken, buffers.value, links);
    ExtendedBelow(input, size, count);
    IterateBelow(l.act, Extended(input, size), Extended(input, count), count, links);
    return Success(id), block, memory, taken, used;
  }

  lemma SettledLeaves(taken: Books, used: (Buffer, Buffer, Buffer), links: nat)
    requires Reached(taken) && |taken.rows| == 4 && links > 0
    requires used.0.handle != used.1.handle && used.0.handle != used.2.handle && used.1.handle != used.2.handle
    requires used.0.handle in taken.held && used.1.handle in taken.held && used.2.handle in taken.held
    requires taken.held[used.1.handle] == used.1 && taken.held[used.2.handle] == used.2
    ensures Left(taken,
      Settled(taken, used.0.handle, Pong(links, used.1.handle, used.2.handle),
        Pong(links - 1, used.1.handle, used.2.handle)),
      used, links, taken.nextId)
  {
    HeldAreTheirs(taken);
    SettledHoldsNone(taken, used.0.handle, Pong(links, used.1.handle, used.2.handle),
      Pong(links - 1, used.1.handle, used.2.handle));
  }

  /** A chain's block has one member, its extent, which always fits. */
  method PushedBlock(l: Linear, count: nat, max: nat) returns (block: seq<int>)
    requires |l.leaves| == 2 && l.root.Some? && PushConstants.Refused(l.root.value, l.leaves, l.given, max).None?
    ensures PushConstants.Pushes(block, l.root.value, l.leaves, l.given, count)
  {
    var r := PushConstants.ScalarBlock(l.root.value, l.leaves, l.given, count, max);
    assert PushConstants.Members(l.leaves) == [l.leaves[0]];
    return r.value;
  }
}
