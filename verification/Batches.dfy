/**
Recording a batch: every buffer it uploads to or writes comes from the context's ledger,
out of the pool or new, and is never one the host holds already. Everything it stages is
where its upload will read it.
 */
module Batches {
  import opened Options
  import opened Scalars
  import opened Staging
  import Sums
  import Ledger

  // ---- the buffers a batch takes ----

  function HandlesOf(taken: seq<Sums.Buffer>): (r: seq<nat>)
    ensures |r| == |taken| && forall i :: 0 <= i < |r| ==> r[i] == taken[i].handle
  {
    seq(|taken|, i requires 0 <= i < |taken| => taken[i].handle)
  }

  /** What the host holds once it has taken these too, in order. */
  function With(held: map<nat, Sums.Buffer>, taken: seq<Sums.Buffer>): map<nat, Sums.Buffer> {
    if taken == [] then held else With(held, taken[..|taken| - 1])[taken[|taken| - 1].handle := taken[|taken| - 1]]
  }

  /**
  From the books the batch started from, the host has taken these, no two of them one allocation, and nothing became
  resident.
   */
  ghost predicate Took(context: Ledger.Context, start: Ledger.Books, taken: seq<Sums.Buffer>)
    reads context
  {
    && context.resident == start.resident && context.nextId == start.nextId
    && context.books.held == With(start.held, taken) && Apart(start.held, taken)
  }

  /** None is one the host held before, and no two are one. */
  ghost predicate Apart(held: map<nat, Sums.Buffer>, taken: seq<Sums.Buffer>) {
    && (forall i :: 0 <= i < |taken| ==> taken[i].handle !in held)
    && forall i, j :: 0 <= i < j < |taken| ==> taken[i].handle != taken[j].handle
  }

  lemma {:induction false} WithHolds(held: map<nat, Sums.Buffer>, taken: seq<Sums.Buffer>)
    requires Apart(held, taken)
    ensures forall i :: 0 <= i < |taken| ==>
      taken[i].handle in With(held, taken) && With(held, taken)[taken[i].handle] == taken[i]
    ensures forall h :: h in held ==> h in With(held, taken)
  {
    if taken != [] { WithHolds(held, taken[..|taken| - 1]); }
  }

  lemma OneMoreTaken(held: map<nat, Sums.Buffer>, taken: seq<Sums.Buffer>, b: Sums.Buffer)
    requires Apart(held, taken) && b.handle !in With(held, taken)
    ensures Apart(held, taken + [b]) && With(held, taken + [b]) == With(held, taken)[b.handle := b]
  {
    WithHolds(held, taken);
    assert (taken + [b])[..|taken|] == taken;
  }

  /** The elements and class of the buffer input `i` is uploaded to. */
  function UploadShape(d: Dispatch, i: nat): Sums.Shape
    requires i < |d.inputs| && d.inputs[i].Host?
  {
    var kind := SlotClass(d, i);
    (Max(d.padded, OwnElements(|AtClass(d.inputs[i].data, d.inputs[i].passed, kind)|, Width(kind))), kind)
  }

  function OutputShape(d: Dispatch, o: nat): Sums.Shape
    requires o < |d.outputs|
  {
    (Max(d.padded, d.outputs[o].declared), d.outputs[o].kind)
  }

  /** An upload fills the buffer it goes to. */
  lemma UploadFills(d: Dispatch, i: nat)
    requires i < |d.inputs| && d.inputs[i].Host?
    ensures Size(StagedInput(d, i)) + StagedInput(d, i).tail == Sums.Bytes(UploadShape(d, i).0, UploadShape(d, i).1)
  {
    var kind := SlotClass(d, i);
    var own := OwnElements(|AtClass(d.inputs[i].data, d.inputs[i].passed, kind)|, Width(kind));
    assert own * Width(kind) <= Max(d.padded, own) * Width(kind);
  }

  /** An upload's buffer has the greater of a whole launch and what the host holds, and an output's its extent too. */
  lemma BuffersHaveRoom(d: Dispatch, i: nat, o: nat)
    requires i < |d.inputs| && d.inputs[i].Host? && o < |d.outputs|
    ensures var n, own := UploadShape(d, i).0, Size(StagedInput(d, i));
      d.padded <= n && own <= n * Width(UploadShape(d, i).1) && (n == d.padded || n * Width(UploadShape(d, i).1) == own)
    ensures var n := OutputShape(d, o).0;
      d.padded <= n && d.outputs[o].declared <= n && (n == d.padded || n == d.outputs[o].declared) &&
      OutputShape(d, o).1 == d.outputs[o].kind
  {
    var kind := SlotClass(d, i);
    var own := OwnElements(|AtClass(d.inputs[i].data, d.inputs[i].passed, kind)|, Width(kind));
    assert own * Width(kind) <= Max(d.padded, own) * Width(kind);
  }

  /** The driver's answers, one per buffer it may be asked for. */
  ghost predicate SomeFails(ok: nat -> bool) {
    exists n: nat :: !ok(n)
  }

  /** One more buffer, from the pool or new. */
  method TakeOne(context: Ledger.Context, ghost start: Ledger.Books, taken: seq<Sums.Buffer>, shape: Sums.Shape,
      tag: Sums.Tag, ok: bool)
    returns (got: bool, after: seq<Sums.Buffer>)
    requires context.Valid() && Took(context, start, taken)
    modifies context
    ensures context.Valid() && Took(context, start, after)
    ensures got <==> ok || Sums.Pool(old(context.recycled), shape) != []
    ensures after ==
      if got then taken + [Sums.Buffer(Ledger.HandleFor(old(context.books), shape), shape.0, shape.1, tag)] else taken
  {
    var r := context.Allocate(shape.0, shape.1, tag, ok);
    if r.None? { return false, taken; }
    OneMoreTaken(start.held, taken, r.value);
    return true, taken + [r.value];
  }

  // ---- one dispatch ----

  ghost predicate IsShaped(b: Sums.Buffer, shape: Sums.Shape, tag: Sums.Tag) {
    (b.padded, b.kind) == shape && b.tag == tag
  }

  /** The buffers at the places of the first `i` inputs have room for exactly what is uploaded to them. */
  ghost predicate UploadsShaped(d: Dispatch, taken: seq<Sums.Buffer>, first: nat, i: nat)
    requires i <= |d.inputs|
  {
    forall j: nat :: j < i && d.inputs[j].Host? ==> UploadShaped(d, taken, first + HostsBefore(Prepare(d), j), j)
  }

  ghost predicate UploadShaped(d: Dispatch, taken: seq<Sums.Buffer>, place: nat, j: nat)
    requires j < |d.inputs| && d.inputs[j].Host?
  {
    place < |taken| && IsShaped(taken[place], UploadShape(d, j), Sums.Upload)
  }

  /** Those at the places of its outputs have room for a whole launch and for the extent they declare. */
  ghost predicate OutputsShaped(d: Dispatch, taken: seq<Sums.Buffer>, first: nat, n: nat)
    requires n <= |d.outputs|
  {
    first + n <= |taken| && forall o: nat :: o < n ==> IsShaped(taken[first + o], OutputShape(d, o), Sums.Output)
  }

  lemma OutputTaken(d: Dispatch, before: seq<Sums.Buffer>, taken: seq<Sums.Buffer>, after: seq<Sums.Buffer>, o: nat)
    requires o < |d.outputs| && before <= taken && |taken| == |before| + o && OutputsShaped(d, taken, |before|, o)
    requires taken <= after && |after| == |taken| + 1 && IsShaped(after[|taken|], OutputShape(d, o), Sums.Output)
    ensures before <= after && OutputsShaped(d, after, |before|, o + 1)
  {
  }

  method TakeOutputs(context: Ledger.Context, ghost start: Ledger.Books, taken: seq<Sums.Buffer>, d: Dispatch,
      ok: nat -> bool)
    returns (got: bool, after: seq<Sums.Buffer>)
    requires context.Valid() && Took(context, start, taken)
    modifies context
    ensures context.Valid() && Took(context, start, after) && taken <= after
    ensures
      if got then |after| == |taken| + |d.outputs| && OutputsShaped(d, after, |taken|, |d.outputs|) else SomeFails(ok)
  {
    after := taken;
    var o := 0;
    while o < |d.outputs|
      invariant 0 <= o <= |d.outputs| && context.Valid() && Took(context, start, after)
      invariant taken <= after && |after| == |taken| + o && OutputsShaped(d, after, |taken|, o)
    {
      var one, more := TakeOne(context, start, after, OutputShape(d, o), Sums.Output, ok(|after|));
      if !one { return false, more; }
      OutputTaken(d, taken, after, more, o);
      after := more;
      o := o + 1;
    }
    return true, after;
  }

  /** What the loop over a dispatch's inputs has after `i` of them. */
  datatype Loading = Loading(uploads: seq<Transfer>, sources: seq<nat>, next: nat, taken: seq<Sums.Buffer>)

  ghost predicate Loads(l: Loading, d: Dispatch, bound: seq<Bound>, at: nat, before: seq<Sums.Buffer>, i: nat)
    requires Uploading(Prepare(d), bound) && i <= |d.inputs|
  {
    var staged := Prepare(d);
    && before <= l.taken && |l.taken| == |before| + HostsBefore(staged, i) && l.next == at + OffsetOf(staged, i)
    && l.uploads == Uploads(staged, at, HandlesOf(l.taken), |before|, i)
    && l.sources == Sources(bound, staged, HandlesOf(l.taken), |before|, i)
    && UploadsShaped(d, l.taken, |before|, i)
  }

  lemma HandlesGrow(taken: seq<Sums.Buffer>, after: seq<Sums.Buffer>)
    requires taken <= after
    ensures HandlesOf(taken) <= HandlesOf(after)
  {
  }

  lemma InputRead(l: Loading, d: Dispatch, bound: seq<Bound>, at: nat, before: seq<Sums.Buffer>, i: nat)
    requires Uploading(Prepare(d), bound) && i < |d.inputs| && Loads(l, d, bound, at, before, i) && bound[i].InBuffer?
    ensures Loads(l.(sources := l.sources + [bound[i].handle]), d, bound, at, before, i + 1)
  {
    Prepared(d, i);
  }

  lemma InputUploaded(l: Loading, d: Dispatch, bound: seq<Bound>, at: nat, before: seq<Sums.Buffer>, i: nat,
      b: Sums.Buffer)
    requires Uploading(Prepare(d), bound) && i < |d.inputs| && Loads(l, d, bound, at, before, i) && bound[i].Uploaded?
    requires d.inputs[i].Host? && IsShaped(b, UploadShape(d, i), Sums.Upload)
    ensures var staged, taken := Prepare(d), l.taken + [b];
      var upload := UploadOf(staged, at, HandlesOf(taken), |before|, i);
      staged[i].block.Some? &&
      Loads(Loading(l.uploads + [upload], l.sources + [b.handle], l.next + |staged[i].block.value|, taken), d, bound,
        at, before, i + 1)
  {
    var staged, taken := Prepare(d), l.taken + [b];
    Prepared(d, i);
    HandlesGrow(l.taken, taken);
    UploadsStay(staged, at, HandlesOf(l.taken), HandlesOf(taken), |before|, i);
    SourcesStay(bound, staged, HandlesOf(l.taken), HandlesOf(taken), |before|, i);
    UploadsStayShaped(d, l.taken, b, |before|, i);
  }

  lemma UploadsStayShaped(d: Dispatch, taken: seq<Sums.Buffer>, b: Sums.Buffer, first: nat, i: nat)
    requires i < |d.inputs| && UploadsShaped(d, taken, first, i) && first + HostsBefore(Prepare(d), i) == |taken|
    requires d.inputs[i].Host? && IsShaped(b, UploadShape(d, i), Sums.Upload)
    ensures UploadsShaped(d, taken + [b], first, i + 1)
  {
    forall j: nat | j < i + 1 && d.inputs[j].Host?
      ensures UploadShaped(d, taken + [b], first + HostsBefore(Prepare(d), j), j)
    {
      if j < i { UploadStaysShaped(d, taken, b, first + HostsBefore(Prepare(d), j), j); }
    }
  }

  lemma UploadStaysShaped(d: Dispatch, taken: seq<Sums.Buffer>, b: Sums.Buffer, place: nat, j: nat)
    requires j < |d.inputs| && d.inputs[j].Host? && UploadShaped(d, taken, place, j)
    ensures UploadShaped(d, taken + [b], place, j)
  {
  }

  /** Where the loop over a dispatch's inputs is. */
  ghost predicate LoadedTo(context: Ledger.Context, start: Ledger.Books, staging: array<int>, d: Dispatch,
      bound: seq<Bound>, at: nat, before: seq<Sums.Buffer>, l: Loading, i: nat)
    requires Uploading(Prepare(d), bound) && i <= |d.inputs|
    reads context, staging
  {
    context.Valid() && Took(context, start, l.taken) && Loads(l, d, bound, at, before, i) &&
      Laid(staging[..], Prepare(d), at, i)
  }

  /** One input: read where it lies, or staged for a buffer of its own. */
  method LoadOne(context: Ledger.Context, ghost start: Ledger.Books, staging: array<int>, d: Dispatch,
      bound: seq<Bound>, at: nat, before: seq<Sums.Buffer>, l: Loading, i: nat, ok: nat -> bool)
    returns (got: bool, after: Loading)
    requires Uploading(Prepare(d), bound) && i < |d.inputs| && at + Total(Prepare(d)) <= staging.Length
    requires LoadedTo(context, start, staging, d, bound, at, before, l, i)
    modifies context, staging
    ensures staging[..at] == old(staging[..at])
    ensures if got then LoadedTo(context, start, staging, d, bound, at, before, after, i + 1)
      else context.Valid() && Took(context, start, after.taken) && before <= after.taken && SomeFails(ok)
  {
    ghost var staged := Prepare(d);
    Prepared(d, i);
    if bound[i].InBuffer? {
      InputRead(l, d, bound, at, before, i);
      NothingToStage(staging[..], staged, at, i);
      return true, l.(sources := l.sources + [bound[i].handle]);
    }
    var one, taken := TakeOne(context, start, l.taken, UploadShape(d, i), Sums.Upload, ok(|l.taken|));
    if !one { return false, l.(taken := taken); }
    var buffer := taken[|taken| - 1];
    OffsetGrows(staged, i, |staged|);
    InputUploaded(l, d, bound, at, before, i, buffer);
    StageBlock(staging, Prepare(d), at, i, l.next);
    var upload := UploadOf(Prepare(d), at, HandlesOf(taken), |before|, i);
    return true,
      Loading(l.uploads + [upload], l.sources + [buffer.handle], l.next + |Prepare(d)[i].block.value|, taken);
  }

  ghost predicate Shaped(d: Dispatch, taken: seq<Sums.Buffer>, first: nat) {
    UploadsShaped(d, taken, first, |d.inputs|) && OutputsShaped(d, taken, first + Hosts(d), |d.outputs|)
  }

  lemma LoadedCommand(l: Loading, d: Dispatch, bound: seq<Bound>, at: nat, before: seq<Sums.Buffer>,
      after: seq<Sums.Buffer>)
    requires Uploading(Prepare(d), bound) && Loads(l, d, bound, at, before, |d.inputs|)
    requires l.taken <= after && |after| == |l.taken| + |d.outputs| && OutputsShaped(d, after, |l.taken|, |d.outputs|)
    ensures Command(d.kernel, l.uploads, l.sources, Slice(HandlesOf(after), |l.taken|, |d.outputs|))
      == CommandFor(d.kernel, Prepare(d), |d.outputs|, bound, at, HandlesOf(after), |before|)
    ensures |after| == |before| + Hosts(d) + |d.outputs| && before <= after && Shaped(d, after, |before|)
  {
    HandlesGrow(l.taken, after);
    UploadsStay(Prepare(d), at, HandlesOf(l.taken), HandlesOf(after), |before|, |d.inputs|);
    SourcesStay(bound, Prepare(d), HandlesOf(l.taken), HandlesOf(after), |before|, |d.inputs|);
  }

  /**
  `dispatch_into`: stage one dispatch's host inputs from `at` on, take its outputs' buffers, and say where it stopped.
   */
  method DispatchInto(context: Ledger.Context, ghost start: Ledger.Books, staging: array<int>, d: Dispatch,
      bound: seq<Bound>, at: nat, taken: seq<Sums.Buffer>, ok: nat -> bool)
    returns (r: Result<Command, BatchError>, next: nat, after: seq<Sums.Buffer>)
    requires context.Valid() && Took(context, start, taken)
    requires Uploading(Prepare(d), bound) && at + Total(Prepare(d)) <= staging.Length
    modifies context, staging
    ensures context.Valid() && Took(context, start, after) && taken <= after && staging[..at] == old(staging[..at])
    ensures r.Failure? ==> r.error == Driver && SomeFails(ok)
    ensures r.Success? ==> next == at + Total(Prepare(d)) && Laid(staging[..], Prepare(d), at, |d.inputs|)
    ensures r.Success? ==> |after| == |taken| + Hosts(d) + |d.outputs| && Shaped(d, after, |taken|)
    ensures r.Success? ==>
      r.value == CommandFor(d.kernel, Prepare(d), |d.outputs|, bound, at, HandlesOf(after), |taken|)
  {
    var l := Loading([], [], at, taken);
    var i := 0;
    while i < |d.inputs|
      invariant 0 <= i <= |d.inputs| && LoadedTo(context, start, staging, d, bound, at, taken, l, i)
      invariant staging[..at] == old(staging[..at])
    {
      var one, more := LoadOne(context, start, staging, d, bound, at, taken, l, i, ok);
      if !one { return Failure(Driver), l.next, more.taken; }
      l := more;
      i := i + 1;
    }
    var got, all := TakeOutputs(context, start, l.taken, d, ok);
    if !got { return Failure(Driver), l.next, all; }
    LoadedCommand(l, d, bound, at, taken, all);
    return Success(Command(d.kernel, l.uploads, l.sources, Slice(HandlesOf(all), |l.taken|, |d.outputs|))), l.next, all;
  }

  // ---- the batch ----

  /** Every input of a dispatch names something there is, and the launch is of something. */
  predicate InputBinds(batch: seq<Dispatch>, resident: map<nat, nat>, k: nat, input: Input) {
    match input
    case Host(_, _) => true
    case Held(id) => id in resident
    case Produced(dispatch, ordinal) => dispatch < k && dispatch < |batch| && ordinal < |batch[dispatch].outputs|
  }

  ghost predicate DispatchBinds(batch: seq<Dispatch>, resident: map<nat, nat>, k: nat)
    requires k < |batch|
  {
    (forall i: nat :: i < |batch[k].inputs| ==> InputBinds(batch, resident, k, batch[k].inputs[i])) &&
      batch[k].padded > 0
  }

  ghost predicate BindsUpTo(batch: seq<Dispatch>, resident: map<nat, nat>, n: nat)
    requires n <= |batch|
  {
    forall k: nat :: k < n ==> DispatchBinds(batch, resident, k)
  }

  ghost predicate BatchBinds(batch: seq<Dispatch>, resident: map<nat, nat>) {
    BindsUpTo(batch, resident, |batch|)
  }

  /** What stops a batch at dispatch `k`: an input that names nothing there is, or a launch of nothing. */
  ghost predicate StopsAt(batch: seq<Dispatch>, resident: map<nat, nat>, k: nat, e: BatchError) {
    k < |batch| && BindsUpTo(batch, resident, k) &&
      match e
      case UnknownResident(id) => Held(id) in batch[k].inputs && id !in resident
      case UnknownBatchOutput(dispatch, ordinal) =>
        Produced(dispatch, ordinal) in batch[k].inputs && !(dispatch < k && ordinal < |batch[dispatch].outputs|)
      case EmptyRun => batch[k].padded == 0
      case Driver => false
  }

  lemma UnboundStops(batch: seq<Dispatch>, resident: map<nat, nat>, handles: seq<nat>, k: nat, e: BatchError)
    requires k < |batch| && BindsUpTo(batch, resident, k)
    requires exists i: nat :: FirstUnbound(batch[k].inputs, resident, OutputsOf(batch, handles, k), i, e)
    ensures StopsAt(batch, resident, k, e)
  {
    var i: nat :| FirstUnbound(batch[k].inputs, resident, OutputsOf(batch, handles, k), i, e);
    assert batch[k].inputs[i] in batch[k].inputs;
  }

  lemma BindsOneMore(batch: seq<Dispatch>, resident: map<nat, nat>, k: nat)
    requires k < |batch| && BindsUpTo(batch, resident, k)
    ensures DispatchBinds(batch, resident, k) ==> BindsUpTo(batch, resident, k + 1)
    ensures !DispatchBinds(batch, resident, k) ==> !BatchBinds(batch, resident)
  {
  }

  lemma ReservationHolds(batch: seq<Dispatch>, k: nat)
    requires k < |batch|
    ensures BatchOffset(batch, k + 1) <= BatchOffset(batch, |batch|)
  {
    if k + 1 < |batch| { BatchOffsetGrows(batch, k + 1, |batch|); }
  }

  /**
  A produced input binds exactly when it names an output of an earlier dispatch of the batch; whatever buffers were
  taken.
   */
  lemma ProducedIsEarlier(batch: seq<Dispatch>, resident: map<nat, nat>, handles: seq<nat>, k: nat, i: nat)
    requires k < |batch| && i < |batch[k].inputs|
    ensures BindInput(batch[k].inputs[i], resident, OutputsOf(batch, handles, k)).Success? <==>
      InputBinds(batch, resident, k, batch[k].inputs[i])
  {
  }

  lemma {:induction false} BindsExactly(batch: seq<Dispatch>, resident: map<nat, nat>, handles: seq<nat>, k: nat,
      n: nat)
    requires k < |batch| && n <= |batch[k].inputs|
    ensures BoundUpTo(batch[k].inputs, resident, OutputsOf(batch, handles, k), n).Success? <==>
      forall i: nat :: i < n ==> InputBinds(batch, resident, k, batch[k].inputs[i])
  {
    if n > 0 {
      BindsExactly(batch, resident, handles, k, n - 1);
      ProducedIsEarlier(batch, resident, handles, k, n - 1);
    }
  }

  lemma BindingUploads(batch: seq<Dispatch>, resident: map<nat, nat>, handles: seq<nat>, k: nat)
    requires k < |batch| && Binding(batch, resident, handles, k).Success?
    ensures Uploading(Prepare(batch[k]), Binding(batch, resident, handles, k).value)
  {
    var d := batch[k];
    forall i: nat | i < |d.inputs|
      ensures Binding(batch, resident, handles, k).value[i].Uploaded? <==> Prepare(d)[i].block.Some?
    {
      Prepared(d, i);
      BoundIsBound(d.inputs, resident, OutputsOf(batch, handles, k), |d.inputs|, i);
    }
  }

  /** The first `k` dispatches' blocks are all where their uploads will read them. */
  ghost predicate AllLaid(staging: seq<int>, batch: seq<Dispatch>, k: nat)
    requires k <= |batch|
  {
    forall j: nat :: j < k ==> Laid(staging, Prepare(batch[j]), BatchOffset(batch, j), |batch[j].inputs|)
  }

  lemma OneMoreLaid(before: seq<int>, after: seq<int>, batch: seq<Dispatch>, k: nat)
    requires k < |batch| && AllLaid(before, batch, k) && |before| == |after|
    requires BatchOffset(batch, k) <= |before| && after[..BatchOffset(batch, k)] == before[..BatchOffset(batch, k)]
    requires Laid(after, Prepare(batch[k]), BatchOffset(batch, k), |batch[k].inputs|)
    ensures AllLaid(after, batch, k + 1)
  {
    forall j: nat | j < k ensures Laid(after, Prepare(batch[j]), BatchOffset(batch, j), |batch[j].inputs|) {
      BatchOffsetGrows(batch, j, k);
      LaidStays(before, after, Prepare(batch[j]), BatchOffset(batch, j), |batch[j].inputs|, BatchOffset(batch, k));
    }
  }

  /** Command `j` is dispatch `j`'s, over the handles taken for it. */
  ghost predicate RecordedAs(c: Command, batch: seq<Dispatch>, resident: map<nat, nat>, handles: seq<nat>, j: nat)
    requires j < |batch|
  {
    Binding(batch, resident, handles, j).Success? && c == CommandOf(batch, resident, handles, j)
  }

  ghost predicate Recorded(commands: seq<Command>, batch: seq<Dispatch>, resident: map<nat, nat>, handles: seq<nat>,
      k: nat)
    requires k <= |batch|
  {
    |commands| == k && forall j: nat :: j < k ==> RecordedAs(commands[j], batch, resident, handles, j)
  }

  /** What is recorded stays so as more buffers are taken. */
  lemma RecordedStays(c: Command, batch: seq<Dispatch>, resident: map<nat, nat>, handles: seq<nat>, more: seq<nat>,
      j: nat)
    requires j < |batch| && RecordedAs(c, batch, resident, handles, j)
    requires handles <= more && TakenBefore(batch, j + 1) <= |handles|
    ensures RecordedAs(c, batch, resident, more, j)
  {
    OutputsStay(batch, handles, more, j);
    BindingUploads(batch, resident, handles, j);
    CommandStays(batch[j].kernel, Prepare(batch[j]), |batch[j].outputs|, Binding(batch, resident, handles, j).value,
      BatchOffset(batch, j),
      handles, more, TakenBefore(batch, j));
  }

  ghost predicate AllShaped(batch: seq<Dispatch>, taken: seq<Sums.Buffer>, k: nat)
    requires k <= |batch|
  {
    forall j: nat :: j < k ==> Shaped(batch[j], taken, TakenBefore(batch, j))
  }

  lemma ShapedStays(d: Dispatch, taken: seq<Sums.Buffer>, more: seq<Sums.Buffer>, first: nat)
    requires Shaped(d, taken, first) && taken <= more
    ensures Shaped(d, more, first)
  {
  }

  /**
  Where the loop over a batch is: the commands so far, the outputs they name, the staging offset and the buffers
  taken.
   */
  datatype Recording = Recording(commands: seq<Command>, produced: seq<seq<nat>>, end: nat, taken: seq<Sums.Buffer>)

  ghost predicate Underway(r: Recording, batch: seq<Dispatch>, resident: map<nat, nat>, k: nat) {
    && k <= |batch| && |r.taken| == TakenBefore(batch, k) && r.end == BatchOffset(batch, k)
    && Recorded(r.commands, batch, resident, HandlesOf(r.taken), k)
    && r.produced == OutputsOf(batch, HandlesOf(r.taken), k)
    && AllShaped(batch, r.taken, k)
  }

  lemma RecordedSnoc(commands: seq<Command>, batch: seq<Dispatch>, resident: map<nat, nat>, handles: seq<nat>,
      more: seq<nat>, k: nat, c: Command)
    requires k < |batch| && Recorded(commands, batch, resident, handles, k) && RecordedAs(c, batch, resident, more, k)
    requires handles <= more && TakenBefore(batch, k) <= |handles|
    ensures Recorded(commands + [c], batch, resident, more, k + 1)
  {
    forall j: nat | j < k ensures RecordedAs(commands[j], batch, resident, more, j) {
      TakenGrows(batch, j, k);
      RecordedStays(commands[j], batch, resident, handles, more, j);
    }
  }

  lemma ShapedSnoc(batch: seq<Dispatch>, taken: seq<Sums.Buffer>, more: seq<Sums.Buffer>, k: nat)
    requires k < |batch| && AllShaped(batch, taken, k) && taken <= more && Shaped(batch[k], more, TakenBefore(batch, k))
    ensures AllShaped(batch, more, k + 1)
  {
    forall j: nat | j < k ensures Shaped(batch[j], more, TakenBefore(batch, j)) {
      ShapedStays(batch[j], taken, more, TakenBefore(batch, j));
    }
  }

  lemma ProducedSnoc(batch: seq<Dispatch>, resident: map<nat, nat>, handles: seq<nat>, more: seq<nat>, k: nat,
      c: Command)
    requires k < |batch| && handles <= more && TakenBefore(batch, k) <= |handles| &&
      RecordedAs(c, batch, resident, more, k)
    ensures OutputsOf(batch, handles, k) + [c.writes] == OutputsOf(batch, more, k + 1)
  {
    OutputsStay(batch, handles, more, k);
    assert c.writes == OutputHandles(batch, more, k);
  }

  lemma UnderwaySnoc(r: Recording, after: Recording, batch: seq<Dispatch>, resident: map<nat, nat>, k: nat, c: Command)
    requires k < |batch| && Underway(r, batch, resident, k)
    requires r.taken <= after.taken && |after.taken| == TakenBefore(batch, k + 1) &&
      Shaped(batch[k], after.taken, TakenBefore(batch, k))
    requires RecordedAs(c, batch, resident, HandlesOf(after.taken), k)
    requires after.commands == r.commands + [c] && after.produced == r.produced + [c.writes] &&
      after.end == BatchOffset(batch, k + 1)
    ensures Underway(after, batch, resident, k + 1)
  {
    HandlesGrow(r.taken, after.taken);
    RecordedSnoc(r.commands, batch, resident, HandlesOf(r.taken), HandlesOf(after.taken), k, c);
    ShapedSnoc(batch, r.taken, after.taken, k);
    ProducedSnoc(batch, resident, HandlesOf(r.taken), HandlesOf(after.taken), k, c);
  }

  /** The handles residents name. */
  function ResidentHandles(resident: map<nat, Sums.Buffer>): map<nat, nat> {
    map id | id in resident :: resident[id].handle
  }

  lemma BoundStays(batch: seq<Dispatch>, resident: map<nat, nat>, handles: seq<nat>, more: seq<nat>, k: nat)
    requires k < |batch| && handles <= more && TakenBefore(batch, k) <= |handles|
    ensures Binding(batch, resident, more, k) == Binding(batch, resident, handles, k)
  {
    OutputsStay(batch, handles, more, k);
  }

  /** Bind, stage and record dispatch `k`, whose inputs are bound already. */
  method RecordOne(context: Ledger.Context, ghost start: Ledger.Books, staging: array<int>, batch: seq<Dispatch>,
      ghost resident: map<nat, nat>, k: nat, bound: seq<Bound>, r: Recording, ok: nat -> bool)
    returns (got: bool, after: Recording)
    requires context.Valid() && Took(context, start, r.taken)
    requires k < |batch| && Underway(r, batch, resident, k) && AllLaid(staging[..], batch, k) &&
      BatchOffset(batch, k + 1) <= staging.Length
    requires Binding(batch, resident, HandlesOf(r.taken), k) == Success(bound)
    modifies context, staging
    ensures context.Valid() && Took(context, start, after.taken)
    ensures if got then Underway(after, batch, resident, k + 1) && AllLaid(staging[..], batch, k + 1) else SomeFails(ok)
  {
    BindingUploads(batch, resident, HandlesOf(r.taken), k);
    ghost var before := staging[..];
    var c, end, taken := DispatchInto(context, start, staging, batch[k], bound, r.end, r.taken, ok);
    if c.Failure? { return false, r.(taken := taken); }
    assert staging[..][..r.end] == staging[..r.end] && before[..r.end] == old(staging[..r.end]);
    OneMoreLaid(before, staging[..], batch, k);
    HandlesGrow(r.taken, taken);
    BoundStays(batch, resident, HandlesOf(r.taken), HandlesOf(taken), k);
    after := Recording(r.commands + [c.value], r.produced + [c.value.writes], end, taken);
    UnderwaySnoc(r, after, batch, resident, k, c.value);
    return true, after;
  }

  /** Where the loop over a batch is, in the context and the staging. */
  ghost predicate RecordedTo(context: Ledger.Context, start: Ledger.Books, staging: array<int>, batch: seq<Dispatch>,
      r: Recording, k: nat)
    reads context, staging
  {
    && k <= |batch| && context.Valid() && Took(context, start, r.taken)
    && Underway(r, batch, ResidentHandles(start.resident), k) && AllLaid(staging[..], batch, k)
    && BindsUpTo(batch, ResidentHandles(start.resident), k)
  }

  /** One turn of the loop: recorded, unless the dispatch does not bind, runs nothing, or the driver makes no buffer. */
  method Turn(context: Ledger.Context, ghost start: Ledger.Books, staging: array<int>, batch: seq<Dispatch>, k: nat,
      r: Recording, ok: nat -> bool)
    returns (failed: Option<BatchError>, after: Recording)
    requires k < |batch| && staging.Length == BatchOffset(batch, |batch|) &&
      RecordedTo(context, start, staging, batch, r, k)
    modifies context, staging
    ensures failed.None? ==> RecordedTo(context, start, staging, batch, after, k + 1)
    ensures failed.Some? ==> context.Valid() && Took(context, start, after.taken)
    ensures failed == Some(Driver) ==> SomeFails(ok)
    ensures failed.Some? && failed != Some(Driver) ==>
      StopsAt(batch, ResidentHandles(start.resident), k, failed.value) &&
      !BatchBinds(batch, ResidentHandles(start.resident))
  {
    var resident := ResidentHandles(context.resident);
    BindsExactly(batch, resident, HandlesOf(r.taken), k, |batch[k].inputs|);
    BindsOneMore(batch, resident, k);
    var bound := Bind(batch[k].inputs, resident, r.produced);
    if bound.Failure? {
      NotDriver(batch[k].inputs, resident, r.produced, |batch[k].inputs|);
      UnboundStops(batch, resident, HandlesOf(r.taken), k, bound.error);
      return Some(bound.error), r;
    }
    if batch[k].padded == 0 { return Some(EmptyRun), r; }
    ReservationHolds(batch, k);
    var got, more := RecordOne(context, start, staging, batch, resident, k, bound.value, r, ok);
    return if got then None else Some(Driver), more;
  }

  lemma {:induction false} NotDriver(inputs: seq<Input>, resident: map<nat, nat>, produced: seq<seq<nat>>, i: nat)
    requires i <= |inputs|
    ensures BoundUpTo(inputs, resident, produced, i) != Failure(Driver)
  {
    if i > 0 { NotDriver(inputs, resident, produced, i - 1); }
  }

  lemma StartsUnderway(batch: seq<Dispatch>, resident: map<nat, nat>)
    ensures Underway(Recording([], [], 0, []), batch, resident, 0)
  {
    assert OutputsOf(batch, HandlesOf([]), 0) == [];
  }

  /**
   * `record_batch`: with the reservation `batch_staging` computed, no copy leaves it, the final offset is the
   * reservation, every block is where its upload will read it, and the buffers are ones the host has just taken:
   * as large as their uses, no two of them one allocation, and none of them resident. It stops at a dispatch that
   * does not bind or runs nothing, or when the driver makes no buffer.
   */
  method RecordBatch(context: Ledger.Context, staging: array<int>, batch: seq<Dispatch>, ok: nat -> bool)
    returns (failed: Option<BatchError>, r: Recording)
    requires context.Valid() && staging.Length == BatchOffset(batch, |batch|)
    modifies context, staging
    ensures context.Valid() && Took(context, old(context.books), r.taken)
    ensures failed.None? ==>
      BatchBinds(batch, ResidentHandles(old(context.resident))) && r.end == staging.Length &&
      AllLaid(staging[..], batch, |batch|)
    ensures failed.None? ==> Underway(r, batch, ResidentHandles(old(context.resident)), |batch|)
    ensures failed == Some(Driver) ==> SomeFails(ok)
    ensures failed.Some? && failed != Some(Driver) ==>
      !BatchBinds(batch, ResidentHandles(old(context.resident))) &&
      exists k: nat :: StopsAt(batch, ResidentHandles(old(context.resident)), k, failed.value)
  {
    ghost var start := context.books;
    r := Recording([], [], 0, []);
    StartsUnderway(batch, ResidentHandles(start.resident));
    var k := 0;
    while k < |batch|
      invariant 0 <= k <= |batch| && RecordedTo(context, start, staging, batch, r, k)
    {
      failed, r := Turn(context, start, staging, batch, k, r, ok);
      if failed.Some? { return failed, r; }
      k := k + 1;
    }
    return None, r;
  }
}
