/** A batch in one submission: where its host inputs are staged and what it binds. */
module Staging {
  import opened Options
  import opened Scalars

  // Every host input is staged before anything runs, each in its own stretch of one
  // reservation, and a dispatch reads what earlier dispatches of the batch wrote.

  /** Bytes, as host data and as a buffer's contents. */
  type Bytes = seq<int>

  datatype Input = Host(passed: Class, data: Bytes) | Held(id: nat) | Produced(dispatch: nat, ordinal: nat)

  /** An output: the extent its kernel declares for it, zero for none, and its class. */
  datatype Output = Output(declared: nat, kind: Class)

  /** One dispatch: `slots` is the class of each input slot, `padded` the elements a whole launch reaches. */
  datatype Dispatch = Dispatch(kernel: nat, slots: seq<Class>, fallback: Class, inputs: seq<Input>,
    outputs: seq<Output>, padded: nat)

  datatype Transfer = Transfer(src: nat, dst: nat, bytes: nat, tail: nat)

  /** A recorded dispatch: what it uploads, the handles it reads and the handles it writes. */
  datatype Command = Command(kernel: nat, uploads: seq<Transfer>, sources: seq<nat>, writes: seq<nat>)

  datatype BatchError = UnknownResident(id: nat) | UnknownBatchOutput(dispatch: nat, ordinal: nat) | EmptyRun | Driver

  // ---- what one input stages ----

  /** Floats narrowed to brain floats: the high half of each little-endian word. */
  function Narrow(data: Bytes): (r: Bytes)
    ensures |r| == |data| / 4 * 2
  {
    if |data| < 4 then [] else [data[2], data[3]] + Narrow(data[4..])
  }

  /** Brain floats widened to floats. */
  function Widen(data: Bytes): (r: Bytes)
    ensures |r| == |data| / 2 * 4
  {
    if |data| < 2 then [] else [0, 0, data[0], data[1]] + Widen(data[2..])
  }

  function AtClass(data: Bytes, from: Class, to: Class): Bytes {
    if from == FloatClass && to == BFloat16Class then Narrow(data)
    else if from == BFloat16Class && to == FloatClass then Widen(data)
    else data
  }

  /** How many whole elements a host input's bytes are. */
  function OwnElements(bytes: nat, width: nat): nat
    requires width > 0
  {
    bytes / width
  }

  function SlotClass(d: Dispatch, i: nat): Class {
    if i < |d.slots| then d.slots[i] else d.fallback
  }

  /** The bytes of the whole elements among `n`. */
  function WholeBytes(n: nat, kind: Class): (r: nat)
    ensures r <= n
  {
    OwnElements(n, Width(kind)) * Width(kind)
  }

  /** What a host input stages: its whole elements, at its slot's class. */
  function HostBlock(passed: Class, data: Bytes, kind: Class): (r: Bytes)
    ensures |r| == WholeBytes(|AtClass(data, passed, kind)|, kind)
  {
    AtClass(data, passed, kind)[..WholeBytes(|AtClass(data, passed, kind)|, kind)]
  }

  /**
  What one input stages: a block, and the zeros after it up to an allocation holding the block and a whole launch.
   */
  datatype Staged = Staged(block: Option<Bytes>, tail: nat)

  function StagedInput(d: Dispatch, i: nat): Staged
    requires i < |d.inputs|
  {
    match d.inputs[i]
    case Host(passed, data) =>
      var kind := SlotClass(d, i);
      var own := OwnElements(|AtClass(data, passed, kind)|, Width(kind));
      Staged(Some(HostBlock(passed, data, kind)), Max(d.padded, own) * Width(kind) - own * Width(kind))
    case _ => Staged(None, 0)
  }

  /** What each input of a dispatch stages. */
  function Prepare(d: Dispatch): (r: seq<Staged>)
    ensures |r| == |d.inputs|
  {
    seq(|d.inputs|, i requires 0 <= i < |d.inputs| => StagedInput(d, i))
  }

  lemma Prepared(d: Dispatch, i: nat)
    requires i < |d.inputs|
    ensures Prepare(d)[i] == StagedInput(d, i) && (Prepare(d)[i].block.Some? <==> d.inputs[i].Host?)
  {
  }

  function Max(a: nat, b: nat): nat {
    if a < b then b else a
  }

  /** Widening and narrowing again loses nothing but a trailing half element. */
  lemma {:induction false} NarrowUndoesWiden(data: Bytes)
    ensures Narrow(Widen(data)) == data[..|data| / 2 * 2]
  {
    if |data| >= 2 {
      NarrowUndoesWiden(data[2..]);
      assert Widen(data)[4..] == Widen(data[2..]);
      assert data[..|data| / 2 * 2] == [data[0], data[1]] + data[2..][..|data[2..]| / 2 * 2];
    }
  }

  // ---- offsets ----

  function Size(staged: Staged): nat {
    if staged.block.Some? then |staged.block.value| else 0
  }

  /** Where the `i`-th input's block begins: after the ones before it. */
  function OffsetOf(staged: seq<Staged>, i: nat): nat
    requires i <= |staged|
  {
    if i == 0 then 0 else OffsetOf(staged, i - 1) + Size(staged[i - 1])
  }

  function Total(staged: seq<Staged>): nat {
    OffsetOf(staged, |staged|)
  }

  /** Where the `k`-th dispatch's blocks begin. */
  function BatchOffset(batch: seq<Dispatch>, k: nat): nat
    requires k <= |batch|
  {
    if k == 0 then 0 else BatchOffset(batch, k - 1) + Total(Prepare(batch[k - 1]))
  }

  lemma {:induction false} OffsetGrows(staged: seq<Staged>, i: nat, j: nat)
    requires i < j <= |staged|
    ensures OffsetOf(staged, i) + Size(staged[i]) <= OffsetOf(staged, j)
    decreases j
  {
    if i < j - 1 { OffsetGrows(staged, i, j - 1); }
  }

  lemma {:induction false} BatchOffsetGrows(batch: seq<Dispatch>, j: nat, k: nat)
    requires j < k <= |batch|
    ensures BatchOffset(batch, j) + Total(Prepare(batch[j])) <= BatchOffset(batch, k)
    decreases k
  {
    if j < k - 1 { BatchOffsetGrows(batch, j, k - 1); }
  }

  /** `staged_bytes`: one dispatch's own reservation, asked for before anything is recorded. */
  method StagedBytes(d: Dispatch) returns (bytes: nat)
    ensures bytes == Total(Prepare(d))
  {
    bytes := 0;
    for i := 0 to |d.inputs|
      invariant bytes == OffsetOf(Prepare(d), i)
    {
      Prepared(d, i);
      if d.inputs[i].Host? {
        var kind := SlotClass(d, i);
        var data := AtClass(d.inputs[i].data, d.inputs[i].passed, kind);
        bytes := bytes + OwnElements(|data|, Width(kind)) * Width(kind);
      }
    }
  }

  /** `batch_staging`. */
  method BatchStaging(batch: seq<Dispatch>) returns (bytes: nat)
    ensures bytes == BatchOffset(batch, |batch|)
  {
    bytes := 0;
    for k := 0 to |batch|
      invariant bytes == BatchOffset(batch, k)
    {
      var one := StagedBytes(batch[k]);
      bytes := bytes + one;
    }
  }

  /** Two different inputs' stretches never meet, and all are inside the reservation. */
  lemma BlocksAreApart(batch: seq<Dispatch>, k: nat, i: nat, l: nat, j: nat)
    requires k < |batch| && i < |batch[k].inputs| && l < |batch| && j < |batch[l].inputs|
    requires k < l || (k == l && i < j)
    ensures BatchOffset(batch, k) + OffsetOf(Prepare(batch[k]), i) + Size(StagedInput(batch[k], i)) <=
      BatchOffset(batch, l) + OffsetOf(Prepare(batch[l]), j)
    ensures BatchOffset(batch, l) + OffsetOf(Prepare(batch[l]), j) + Size(StagedInput(batch[l], j)) <=
      BatchOffset(batch, |batch|)
  {
    Prepared(batch[k], i);
    Prepared(batch[l], j);
    OffsetGrows(Prepare(batch[k]), i, |batch[k].inputs|);
    OffsetGrows(Prepare(batch[l]), j, |batch[l].inputs|);
    BatchOffsetGrows(batch, l, |batch|);
    if k < l { BatchOffsetGrows(batch, k, l); } else { OffsetGrows(Prepare(batch[k]), i, j); }
  }

  // ---- recording ----

  /** How many of the first `i` inputs are uploaded: each takes a buffer of its own. */
  function HostsBefore(staged: seq<Staged>, i: nat): nat
    requires i <= |staged|
  {
    if i == 0 then 0 else HostsBefore(staged, i - 1) + if staged[i - 1].block.Some? then 1 else 0
  }

  function Hosts(d: Dispatch): nat {
    HostsBefore(Prepare(d), |Prepare(d)|)
  }

  /** How many buffers the first `k` dispatches take: each one's uploads', then its outputs'. */
  function TakenBefore(batch: seq<Dispatch>, k: nat): nat
    requires k <= |batch|
  {
    if k == 0 then 0 else TakenBefore(batch, k - 1) + Hosts(batch[k - 1]) + |batch[k - 1].outputs|
  }

  function At(handles: seq<nat>, n: nat): nat {
    if n < |handles| then handles[n] else 0
  }

  function Slice(handles: seq<nat>, first: nat, count: nat): (r: seq<nat>)
    ensures |r| == count && forall i :: 0 <= i < count ==> r[i] == At(handles, first + i)
  {
    seq<nat>(count, i requires 0 <= i < count => At(handles, first + i))
  }

  /**
  The upload of input `i`: its block, and zeros up to the allocation. A dispatch's own handles start at place `first`.
   */
  function UploadOf(staged: seq<Staged>, at: nat, handles: seq<nat>, first: nat, i: nat): Transfer
    requires i < |staged|
  {
    Transfer(at + OffsetOf(staged, i), At(handles, first + HostsBefore(staged, i)), Size(staged[i]), staged[i].tail)
  }

  function Uploads(staged: seq<Staged>, at: nat, handles: seq<nat>, first: nat, i: nat): seq<Transfer>
    requires i <= |staged|
  {
    if i == 0 then []
    else
      Uploads(staged, at, handles, first, i - 1) + if staged[i - 1].block.Some? then
        [UploadOf(staged, at, handles, first, i - 1)] else []
  }

  /** Where an input is read: in the buffer it is uploaded to, or in one the device holds. */
  datatype Bound = Uploaded | InBuffer(handle: nat)

  function BindInput(input: Input, resident: map<nat, nat>, produced: seq<seq<nat>>): Result<Bound, BatchError> {
    match input
    case Host(_, _) => Success(Uploaded)
    case Held(id) => if id in resident then Success(InBuffer(resident[id])) else Failure(UnknownResident(id))
    case Produced(dispatch, ordinal) =>
      if dispatch < |produced| && ordinal < |produced[dispatch]| then Success(InBuffer(produced[dispatch][ordinal]))
      else Failure(UnknownBatchOutput(dispatch, ordinal))
  }

  /** The first `i` inputs, bound in order, or the first one's error. */
  function BoundUpTo(inputs: seq<Input>, resident: map<nat, nat>, produced: seq<seq<nat>>,
      i: nat): (r: Result<seq<Bound>, BatchError>)
    requires i <= |inputs|
    ensures r.Success? ==> |r.value| == i
  {
    if i == 0 then Success([])
    else
      match BoundUpTo(inputs, resident, produced, i - 1)
      case Failure(e) => Failure(e)
      case Success(before) =>
        match BindInput(inputs[i - 1], resident, produced)
        case Failure(e) => Failure(e)
        case Success(b) => Success(before + [b])
  }

  function BoundOf(inputs: seq<Input>, resident: map<nat, nat>, produced: seq<seq<nat>>): Result<seq<Bound>, BatchError>
  {
    BoundUpTo(inputs, resident, produced, |inputs|)
  }

  lemma {:induction false} BoundRefused(inputs: seq<Input>, resident: map<nat, nat>, produced: seq<seq<nat>>, i: nat,
      n: nat)
    requires i <= n <= |inputs| && BoundUpTo(inputs, resident, produced, i).Failure?
    ensures BoundUpTo(inputs, resident, produced, n) == BoundUpTo(inputs, resident, produced, i)
    decreases n
  {
    if i < n { BoundRefused(inputs, resident, produced, i, n - 1); }
  }

  /** What binding says of each input. */
  lemma {:induction false} BoundIsBound(inputs: seq<Input>, resident: map<nat, nat>, produced: seq<seq<nat>>, n: nat,
      i: nat)
    requires i < n <= |inputs| && BoundUpTo(inputs, resident, produced, n).Success?
    ensures BindInput(inputs[i], resident, produced) == Success(BoundUpTo(inputs, resident, produced, n).value[i])
    decreases n
  {
    if i < n - 1 { BoundIsBound(inputs, resident, produced, n - 1, i); }
  }

  /** Where an input is read once it is bound. */
  ghost predicate BindsTo(input: Input, resident: map<nat, nat>, produced: seq<seq<nat>>, b: Bound) {
    match input
    case Host(_, _) => b == Uploaded
    case Held(id) => id in resident && b == InBuffer(resident[id])
    case Produced(dispatch, ordinal) =>
      dispatch < |produced| && ordinal < |produced[dispatch]| && b == InBuffer(produced[dispatch][ordinal])
  }

  /** Why an input does not bind. */
  ghost predicate Unbound(input: Input, resident: map<nat, nat>, produced: seq<seq<nat>>, e: BatchError) {
    match input
    case Host(_, _) => false
    case Held(id) => e == UnknownResident(id) && id !in resident
    case Produced(dispatch, ordinal) =>
      e == UnknownBatchOutput(dispatch, ordinal) && !(dispatch < |produced| && ordinal < |produced[dispatch]|)
  }

  ghost predicate FirstUnbound(inputs: seq<Input>, resident: map<nat, nat>, produced: seq<seq<nat>>, i: nat,
      e: BatchError)
  {
    && i < |inputs| && Unbound(inputs[i], resident, produced, e)
    && forall j: nat :: j < i ==> CanBind(inputs[j], resident, produced)
  }

  ghost predicate CanBind(input: Input, resident: map<nat, nat>, produced: seq<seq<nat>>) {
    exists b :: BindsTo(input, resident, produced, b)
  }

  /** `bind`: the buffers a dispatch reads, or why the first one that is not there is not. */
  method Bind(inputs: seq<Input>, resident: map<nat, nat>, produced: seq<seq<nat>>)
    returns (r: Result<seq<Bound>, BatchError>)
    ensures r == BoundOf(inputs, resident, produced)
    ensures r.Success? ==>
      |r.value| == |inputs| && forall i: nat :: i < |inputs| ==> BindsTo(inputs[i], resident, produced, r.value[i])
    ensures r.Failure? ==> exists i: nat :: FirstUnbound(inputs, resident, produced, i, r.error)
  {
    var bound: seq<Bound> := [];
    for i := 0 to |inputs|
      invariant BoundUpTo(inputs, resident, produced, i) == Success(bound)
      invariant |bound| == i && forall j: nat :: j < i ==> BindsTo(inputs[j], resident, produced, bound[j])
    {
      var one := BindInput(inputs[i], resident, produced);
      if one.Failure? {
        BoundRefused(inputs, resident, produced, i + 1, |inputs|);
        forall j: nat | j < i ensures CanBind(inputs[j], resident, produced) {
          assert BindsTo(inputs[j], resident, produced, bound[j]);
        }
        assert FirstUnbound(inputs, resident, produced, i, one.error);
        return Failure(one.error);
      }
      bound := bound + [one.value];
    }
    return Success(bound);
  }

  /** The handles the first `i` inputs are read through. */
  function Sources(bound: seq<Bound>, staged: seq<Staged>, handles: seq<nat>, first: nat, i: nat): (r: seq<nat>)
    requires i <= |bound| == |staged|
    ensures |r| == i
  {
    if i == 0 then []
    else
      Sources(bound, staged, handles, first, i - 1) +
      [if bound[i - 1].InBuffer? then bound[i - 1].handle else At(handles, first + HostsBefore(staged, i - 1))]
  }

  /** The handles dispatch `k` writes. */
  function OutputHandles(batch: seq<Dispatch>, handles: seq<nat>, k: nat): (r: seq<nat>)
    requires k < |batch|
    ensures |r| == |batch[k].outputs|
  {
    Slice(handles, TakenBefore(batch, k) + Hosts(batch[k]), |batch[k].outputs|)
  }

  /** The outputs of the first `k` dispatches, as handles. */
  function OutputsOf(batch: seq<Dispatch>, handles: seq<nat>, k: nat): (r: seq<seq<nat>>)
    requires k <= |batch|
    ensures |r| == k && forall j: nat :: j < k ==> r[j] == OutputHandles(batch, handles, j)
  {
    seq(k, j requires 0 <= j < k => OutputHandles(batch, handles, j))
  }

  /** What dispatch `k` binds, given the outputs of the ones before it. */
  function Binding(batch: seq<Dispatch>, resident: map<nat, nat>, handles: seq<nat>,
      k: nat): Result<seq<Bound>, BatchError>
    requires k < |batch|
  {
    BoundOf(batch[k].inputs, resident, OutputsOf(batch, handles, k))
  }

  /** A dispatch recorded with its blocks from `at` on and its own handles from place `first` on. */
  function CommandFor(kernel: nat, staged: seq<Staged>, outputs: nat, bound: seq<Bound>, at: nat, handles: seq<nat>,
      first: nat): Command
    requires |bound| == |staged|
  {
    Command(kernel, Uploads(staged, at, handles, first, |staged|), Sources(bound, staged, handles, first, |staged|),
      Slice(handles, first + HostsBefore(staged, |staged|), outputs))
  }

  function CommandOf(batch: seq<Dispatch>, resident: map<nat, nat>, handles: seq<nat>, k: nat): Command
    requires k < |batch| && Binding(batch, resident, handles, k).Success?
  {
    CommandFor(batch[k].kernel, Prepare(batch[k]), |batch[k].outputs|, Binding(batch, resident, handles, k).value,
      BatchOffset(batch, k), handles,
      TakenBefore(batch, k))
  }

  // ---- what is recorded does not change as more buffers are taken ----

  lemma {:induction false} UploadsStay(staged: seq<Staged>, at: nat, handles: seq<nat>, more: seq<nat>, first: nat,
      i: nat)
    requires i <= |staged| && handles <= more && first + HostsBefore(staged, i) <= |handles|
    ensures Uploads(staged, at, more, first, i) == Uploads(staged, at, handles, first, i)
  {
    if i > 0 { UploadsStay(staged, at, handles, more, first, i - 1); }
  }

  lemma {:induction false} SourcesStay(bound: seq<Bound>, staged: seq<Staged>, handles: seq<nat>, more: seq<nat>,
      first: nat, i: nat)
    requires i <= |bound| == |staged| && handles <= more && first + HostsBefore(staged, i) <= |handles|
    requires forall j: nat :: j < i ==> (bound[j].Uploaded? <==> staged[j].block.Some?)
    ensures Sources(bound, staged, more, first, i) == Sources(bound, staged, handles, first, i)
  {
    if i > 0 { SourcesStay(bound, staged, handles, more, first, i - 1); }
  }

  lemma {:induction false} TakenGrows(batch: seq<Dispatch>, j: nat, k: nat)
    requires j < k <= |batch|
    ensures TakenBefore(batch, j) + Hosts(batch[j]) + |batch[j].outputs| <= TakenBefore(batch, k)
    decreases k
  {
    if j < k - 1 { TakenGrows(batch, j, k - 1); }
  }

  lemma OutputsStay(batch: seq<Dispatch>, handles: seq<nat>, more: seq<nat>, k: nat)
    requires k <= |batch| && handles <= more && TakenBefore(batch, k) <= |handles|
    ensures OutputsOf(batch, more, k) == OutputsOf(batch, handles, k)
  {
    forall j: nat | j < k
      ensures OutputHandles(batch, more, j) == OutputHandles(batch, handles, j)
    {
      TakenGrows(batch, j, k);
    }
  }

  /** The first `n` blocks lie in the staging, each at its own offset past `at`. */
  ghost predicate Laid(staging: Bytes, staged: seq<Staged>, at: nat, n: nat)
    requires n <= |staged|
  {
    forall i: nat :: i < n && staged[i].block.Some? ==> LaidAt(staging, at + OffsetOf(staged, i), staged[i].block.value)
  }

  ghost predicate LaidAt(staging: Bytes, from: nat, block: Bytes) {
    from + |block| <= |staging| && staging[from..from + |block|] == block
  }

  lemma LaidAtStays(before: Bytes, after: Bytes, from: nat, block: Bytes, edge: nat)
    requires LaidAt(before, from, block) && from + |block| <= edge <= |before| == |after| &&
      after[..edge] == before[..edge]
    ensures LaidAt(after, from, block)
  {
    forall j: nat | from <= j < from + |block| ensures after[j] == before[j] {
      assert after[..edge][j] == before[..edge][j];
    }
    assert after[from..from + |block|] == before[from..from + |block|];
  }

  lemma LaidStays(before: Bytes, after: Bytes, staged: seq<Staged>, at: nat, n: nat, edge: nat)
    requires n <= |staged| && Laid(before, staged, at, n) && |before| == |after|
    requires at + OffsetOf(staged, n) <= edge <= |before| && after[..edge] == before[..edge]
    ensures Laid(after, staged, at, n)
  {
    forall i: nat | i < n && staged[i].block.Some?
      ensures LaidAt(after, at + OffsetOf(staged, i), staged[i].block.value)
    {
      OffsetGrows(staged, i, n);
      LaidAtStays(before, after, at + OffsetOf(staged, i), staged[i].block.value, edge);
    }
  }

  /** Copy a block into mapped staging. */
  method CopyIn(staging: array<int>, offset: nat, block: Bytes)
    requires offset + |block| <= staging.Length
    modifies staging
    ensures staging[offset..offset + |block|] == block
    ensures staging[..offset] == old(staging[..offset])
    ensures staging[offset + |block|..] == old(staging[offset + |block|..])
  {
    var k := 0;
    while k < |block|
      invariant 0 <= k <= |block|
      invariant forall i :: 0 <= i < k ==> staging[offset + i] == block[i]
      invariant forall i :: 0 <= i < offset ==> staging[i] == old(staging[i])
      invariant forall i :: offset + |block| <= i < staging.Length ==> staging[i] == old(staging[i])
    {
      staging[offset + k] := block[k];
      k := k + 1;
    }
  }

  lemma NothingToStage(staging: Bytes, staged: seq<Staged>, at: nat, i: nat)
    requires i < |staged| && staged[i].block.None? && Laid(staging, staged, at, i)
    ensures Laid(staging, staged, at, i + 1)
  {
  }

  /** Stage the `i`-th block where the ones before it ended. */
  method StageBlock(staging: array<int>, staged: seq<Staged>, at: nat, i: nat, offset: nat)
    requires i < |staged| && staged[i].block.Some? && offset == at + OffsetOf(staged, i) &&
      offset + |staged[i].block.value| <= staging.Length
    requires Laid(staging[..], staged, at, i)
    modifies staging
    ensures Laid(staging[..], staged, at, i + 1)
    ensures staging[..at] == old(staging[..at])
  {
    ghost var before := staging[..];
    var block := staged[i].block.value;
    CopyIn(staging, offset, block);
    assert staging[..][..offset] == staging[..offset] && before[..offset] == old(staging[..offset]);
    LaidStays(before, staging[..], staged, at, i, offset);
    assert staging[..][offset..offset + |block|] == staging[offset..offset + |block|];
    assert staging[..at] == staging[..offset][..at] && old(staging[..at]) == old(staging[..offset])[..at];
  }

  /** The bound inputs that are uploaded are the ones that stage a block. */
  ghost predicate Uploading(staged: seq<Staged>, bound: seq<Bound>) {
    |bound| == |staged| && forall i: nat :: i < |bound| ==> (bound[i].Uploaded? <==> staged[i].block.Some?)
  }

  lemma CommandStays(kernel: nat, staged: seq<Staged>, outputs: nat, bound: seq<Bound>, at: nat, handles: seq<nat>,
      more: seq<nat>, first: nat)
    requires Uploading(staged, bound) && handles <= more && first + HostsBefore(staged, |staged|) + outputs <= |handles|
    ensures CommandFor(kernel, staged, outputs, bound, at, more, first) ==
      CommandFor(kernel, staged, outputs, bound, at, handles, first)
  {
    UploadsStay(staged, at, handles, more, first, |staged|);
    SourcesStay(bound, staged, handles, more, first, |staged|);
  }
}
