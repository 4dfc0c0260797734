/** What a recorded batch does when the device executes it, on buffers the ledger handed out, pooled or new. */
module BatchRuns {
  import opened Options
  import opened Scalars
  import opened Distinctness
  import opened Staging
  import opened Batches
  import Sums
  import Ledger
  import opened DeviceMemory

  // Every dispatch reads exactly its own inputs, as it would had the batch been run one
  // dispatch after the other.

  /** What a kernel writes to each output: from its inputs' contents and whatever the output's buffer held. */
  datatype Kernels = Kernels(act: (nat, nat, seq<Bytes>, Bytes) -> Bytes)

  function Contents(m: Memory, handles: seq<nat>): (r: seq<Bytes>)
    ensures |r| == |handles| && forall i :: 0 <= i < |r| ==> r[i] == Content(m, handles[i])
  {
    seq(|handles|, i requires 0 <= i < |handles| => Content(m, handles[i]))
  }

  // ---- the device ----

  /** One recorded copy: the staged bytes, then zeros to the end of the buffer. */
  function Upload(staging: Bytes, m: Memory, t: Transfer): Memory {
    if t.src + t.bytes <= |staging| then m[t.dst := staging[t.src..t.src + t.bytes] + Zeros(t.tail)] else m
  }

  function UploadAll(staging: Bytes, m: Memory, uploads: seq<Transfer>): Memory {
    if uploads == [] then m
    else Upload(staging, UploadAll(staging, m, uploads[..|uploads| - 1]), uploads[|uploads| - 1])
  }

  /** The first `n` outputs of one dispatch, every one computed from the same inputs. */
  function WriteAll(ks: Kernels, kernel: nat, inputs: seq<Bytes>, m: Memory, writes: seq<nat>, n: nat): Memory
    requires n <= |writes|
  {
    if n == 0 then m
    else
      var before := WriteAll(ks, kernel, inputs, m, writes, n - 1);
      before[writes[n - 1] := ks.act(kernel, n - 1, inputs, Content(m, writes[n - 1]))]
  }

  function Execute(ks: Kernels, staging: Bytes, m: Memory, c: Command): Memory {
    var ready := UploadAll(staging, m, c.uploads);
    WriteAll(ks, c.kernel, Contents(ready, c.sources), ready, c.writes, |c.writes|)
  }

  /** The submission: the commands one after the other, over staging that was written before any of them. */
  function ExecuteAll(ks: Kernels, staging: Bytes, m: Memory, commands: seq<Command>): Memory {
    if commands == [] then m
    else Execute(ks, staging, ExecuteAll(ks, staging, m, commands[..|commands| - 1]), commands[|commands| - 1])
  }

  // ---- one dispatch after the other ----

  /**
  What input `i` of dispatch `k` is: host data padded with zeros, a resident's contents, or an earlier dispatch's
  output.
   */
  function InputOf(ks: Kernels, batch: seq<Dispatch>, resident: map<nat, nat>, handles: seq<nat>, m: Memory, k: nat,
      i: nat): Bytes
    requires k < |batch| && i < |batch[k].inputs|
    decreases k, 0
  {
    match batch[k].inputs[i]
    case Host(_, _) =>
      var staged := StagedInput(batch[k], i);
      staged.block.value + Zeros(staged.tail)
    case Held(id) => if id in resident then Content(m, resident[id]) else []
    case Produced(dispatch, ordinal) =>
      if dispatch < k && ordinal < |batch[dispatch].outputs| then
        OutputOf(ks, batch, resident, handles, m, dispatch, ordinal)
      else []
  }

  function InputsOf(ks: Kernels, batch: seq<Dispatch>, resident: map<nat, nat>, handles: seq<nat>, m: Memory, k: nat,
      n: nat): (r: seq<Bytes>)
    requires k < |batch| && n <= |batch[k].inputs|
    ensures |r| == n
    decreases k, 1, n
  {
    if n == 0 then []
    else InputsOf(ks, batch, resident, handles, m, k, n - 1) + [InputOf(ks, batch, resident, handles, m, k, n - 1)]
  }

  function OutputOf(ks: Kernels, batch: seq<Dispatch>, resident: map<nat, nat>, handles: seq<nat>, m: Memory, k: nat,
      o: nat): Bytes
    requires k < |batch| && o < |batch[k].outputs|
    decreases k, 2
  {
    ks.act(batch[k].kernel, o, InputsOf(ks, batch, resident, handles, m, k, |batch[k].inputs|),
      Content(m, OutputHandles(batch, handles, k)[o]))
  }

  lemma {:induction false} InputAt(ks: Kernels, batch: seq<Dispatch>, resident: map<nat, nat>, handles: seq<nat>,
      m: Memory, k: nat, n: nat, i: nat)
    requires k < |batch| && i < n <= |batch[k].inputs|
    ensures InputsOf(ks, batch, resident, handles, m, k, n)[i] == InputOf(ks, batch, resident, handles, m, k, i)
    decreases n
  {
    if i < n - 1 { InputAt(ks, batch, resident, handles, m, k, n - 1, i); }
  }

  // ---- uploads ----

  /** None of the handles at these places. */
  ghost predicate NotAt(handles: seq<nat>, from: nat, to: nat, h: nat) {
    forall x: nat :: from <= x < to ==> At(handles, x) != h
  }

  /** The memory after uploading the first `n` inputs, one by one. */
  function Loaded(staging: Bytes, m: Memory, staged: seq<Staged>, at: nat, handles: seq<nat>, first: nat,
      n: nat): Memory
    requires n <= |staged|
  {
    if n == 0 then m
    else
      var before := Loaded(staging, m, staged, at, handles, first, n - 1);
      if staged[n - 1].block.Some? then Upload(staging, before, UploadOf(staged, at, handles, first, n - 1)) else before
  }

  lemma UploadAllSnoc(staging: Bytes, m: Memory, uploads: seq<Transfer>, t: Transfer)
    ensures UploadAll(staging, m, uploads + [t]) == Upload(staging, UploadAll(staging, m, uploads), t)
  {
    assert (uploads + [t])[..|uploads|] == uploads;
  }

  lemma {:induction false} LoadedIsUploads(staging: Bytes, m: Memory, staged: seq<Staged>, at: nat, handles: seq<nat>,
      first: nat, n: nat)
    requires n <= |staged|
    ensures UploadAll(staging, m, Uploads(staged, at, handles, first, n)) ==
      Loaded(staging, m, staged, at, handles, first, n)
  {
    if n > 0 {
      LoadedIsUploads(staging, m, staged, at, handles, first, n - 1);
      var ups := Uploads(staged, at, handles, first, n - 1);
      if staged[n - 1].block.Some? {
        UploadAllSnoc(staging, m, ups, UploadOf(staged, at, handles, first, n - 1));
      } else {
        assert ups + [] == ups;
      }
    }
  }

  lemma {:induction false} LoadedElsewhere(staging: Bytes, m: Memory, staged: seq<Staged>, at: nat, handles: seq<nat>,
      first: nat, n: nat, h: nat)
    requires n <= |staged| && NotAt(handles, first, first + HostsBefore(staged, n), h)
    ensures Content(Loaded(staging, m, staged, at, handles, first, n), h) == Content(m, h)
    decreases n
  {
    if n > 0 { LoadedElsewhere(staging, m, staged, at, handles, first, n - 1, h); }
  }

  lemma {:induction false} LoadedLands(staging: Bytes, m: Memory, staged: seq<Staged>, at: nat, handles: seq<nat>,
      first: nat, n: nat, i: nat)
    requires i < n <= |staged| && Distinct(handles) && first + HostsBefore(staged, n) <= |handles|
    requires staged[i].block.Some? && LaidAt(staging, at + OffsetOf(staged, i), staged[i].block.value)
    ensures Content(Loaded(staging, m, staged, at, handles, first, n), At(handles, first + HostsBefore(staged, i))) ==
      staged[i].block.value + Zeros(staged[i].tail)
    decreases n
  {
    if i < n - 1 {
      LoadedLands(staging, m, staged, at, handles, first, n - 1, i);
      HostsGrow(staged, i, n - 1);
      DistinctPlaces(handles);
    }
  }

  /** Uploading a dispatch's inputs changes no buffer but theirs. */
  lemma UploadsElsewhere(staging: Bytes, m: Memory, staged: seq<Staged>, at: nat, handles: seq<nat>, first: nat, n: nat,
      h: nat)
    requires n <= |staged| && NotAt(handles, first, first + HostsBefore(staged, n), h)
    ensures Content(UploadAll(staging, m, Uploads(staged, at, handles, first, n)), h) == Content(m, h)
  {
    LoadedIsUploads(staging, m, staged, at, handles, first, n);
    LoadedElsewhere(staging, m, staged, at, handles, first, n, h);
  }

  /** Each uploaded input's buffer holds its block, then zeros. */
  lemma UploadsLand(staging: Bytes, m: Memory, staged: seq<Staged>, at: nat, handles: seq<nat>, first: nat, n: nat,
      i: nat)
    requires i < n <= |staged| && Distinct(handles) && first + HostsBefore(staged, n) <= |handles|
    requires Laid(staging, staged, at, |staged|) && staged[i].block.Some?
    ensures Content(UploadAll(staging, m, Uploads(staged, at, handles, first, n)),
      At(handles, first + HostsBefore(staged, i)))
      == staged[i].block.value + Zeros(staged[i].tail)
  {
    LoadedIsUploads(staging, m, staged, at, handles, first, n);
    LoadedLands(staging, m, staged, at, handles, first, n, i);
  }

  lemma {:induction false} HostsGrow(staged: seq<Staged>, i: nat, n: nat)
    requires i < n <= |staged|
    ensures HostsBefore(staged, i) <= HostsBefore(staged, n)
    ensures staged[i].block.Some? ==> HostsBefore(staged, i) < HostsBefore(staged, n)
    decreases n
  {
    if i < n - 1 { HostsGrow(staged, i, n - 1); }
  }

  lemma {:induction false} SourceAt(bound: seq<Bound>, staged: seq<Staged>, handles: seq<nat>, first: nat, n: nat,
      i: nat)
    requires i < n <= |bound| == |staged|
    ensures Sources(bound, staged, handles, first, n)[i] ==
      if bound[i].InBuffer? then bound[i].handle else At(handles, first + HostsBefore(staged, i))
    decreases n
  {
    if i < n - 1 { SourceAt(bound, staged, handles, first, n - 1, i); }
  }

  /** Writing the first `n` outputs changes no buffer but theirs. */
  lemma {:induction false} WritesElsewhere(ks: Kernels, kernel: nat, inputs: seq<Bytes>, m: Memory, writes: seq<nat>,
      n: nat, h: nat)
    requires n <= |writes| && h !in writes
    ensures Content(WriteAll(ks, kernel, inputs, m, writes, n), h) == Content(m, h)
    decreases n
  {
    if n > 0 { WritesElsewhere(ks, kernel, inputs, m, writes, n - 1, h); }
  }

  lemma {:induction false} WritesLand(ks: Kernels, kernel: nat, inputs: seq<Bytes>, m: Memory, writes: seq<nat>, n: nat,
      o: nat)
    requires o < n <= |writes| && Distinct(writes)
    ensures Content(WriteAll(ks, kernel, inputs, m, writes, n), writes[o]) ==
      ks.act(kernel, o, inputs, Content(m, writes[o]))
    decreases n
  {
    DistinctPlaces(writes);
    if o < n - 1 {
      WritesLand(ks, kernel, inputs, m, writes, n - 1, o);
    } else {
      NotYetWritten(ks, kernel, inputs, m, writes, o, o);
    }
  }

  lemma {:induction false} NotYetWritten(ks: Kernels, kernel: nat, inputs: seq<Bytes>, m: Memory, writes: seq<nat>,
      n: nat, o: nat)
    requires n <= o < |writes| && Distinct(writes)
    ensures Content(WriteAll(ks, kernel, inputs, m, writes, n), writes[o]) == Content(m, writes[o])
    decreases n
  {
    DistinctPlaces(writes);
    if n > 0 { NotYetWritten(ks, kernel, inputs, m, writes, n - 1, o); }
  }

  // ---- the batch ----

  /** All that is asked of the buffers a batch takes: no two are one, and none is a resident's. */
  ghost predicate Separate(batch: seq<Dispatch>, resident: map<nat, nat>, handles: seq<nat>) {
    && |handles| == TakenBefore(batch, |batch|) && Distinct(handles)
    && forall id :: id in resident ==> resident[id] !in handles
  }

  /** What the ledger hands out is separate, whether it came from the pool or not. */
  lemma TakenIsSeparate(context: Ledger.Context, start: Ledger.Books, batch: seq<Dispatch>, taken: seq<Sums.Buffer>)
    requires context.Valid() && Took(context, start, taken) && |taken| == TakenBefore(batch, |batch|)
    ensures Separate(batch, ResidentHandles(context.resident), HandlesOf(taken))
  {
    WithHolds(start.held, taken);
    DistinctPlaces(HandlesOf(taken));
    forall id | id in context.resident ensures context.resident[id].handle !in HandlesOf(taken) {
      var h := context.resident[id].handle;
      if h in HandlesOf(taken) {
        Ledger.OneOwner(context.books, Ledger.AtId(id), Ledger.WithHost, h);
      }
    }
  }

  /** The places of dispatch `k`'s own buffers are among the batch's. */
  lemma OwnPlaces(batch: seq<Dispatch>, k: nat)
    requires k < |batch|
    ensures TakenBefore(batch, k) + Hosts(batch[k]) + |batch[k].outputs| ==
      TakenBefore(batch, k + 1) <= TakenBefore(batch, |batch|)
  {
    TakenGrows(batch, k, |batch|);
  }

  /** The device's memory once the first `k` dispatches have run. */
  ghost predicate RanTo(ks: Kernels, batch: seq<Dispatch>, resident: map<nat, nat>, handles: seq<nat>, before: Memory,
      now: Memory, k: nat)
    requires k <= |batch|
  {
    && (forall h: nat :: NotAt(handles, 0, TakenBefore(batch, k), h) ==> Content(now, h) == Content(before, h))
    && (forall j: nat, o: nat :: j < k && o < |batch[j].outputs| ==>
        Content(now, OutputHandles(batch, handles, j)[o]) == OutputOf(ks, batch, resident, handles, before, j, o))
  }

  /** A place of its own keeps a handle apart from those at other places. */
  lemma PlacesDiffer(handles: seq<nat>, x: nat, from: nat, to: nat)
    requires Distinct(handles) && x < |handles| && to <= |handles| && (x < from || to <= x)
    ensures NotAt(handles, from, to, At(handles, x))
  {
    DistinctPlaces(handles);
    forall y: nat | from <= y < to ensures At(handles, y) != At(handles, x) {
      assert if x < y then handles[x] != handles[y] else handles[y] != handles[x];
    }
  }

  lemma OutsideHasNoPlace(handles: seq<nat>, h: nat, from: nat, to: nat)
    requires h !in handles && to <= |handles|
    ensures NotAt(handles, from, to, h)
  {
  }

  /** The buffer an input is read through holds what that input is. */
  lemma SourceHolds(ks: Kernels, staging: Bytes, batch: seq<Dispatch>, resident: map<nat, nat>, handles: seq<nat>,
      before: Memory, now: Memory, k: nat, i: nat)
    requires k < |batch| && RanTo(ks, batch, resident, handles, before, now, k) && Separate(batch, resident, handles)
    requires Binding(batch, resident, handles, k).Success? &&
      Laid(staging, Prepare(batch[k]), BatchOffset(batch, k), |batch[k].inputs|)
    requires i < |batch[k].inputs|
    ensures var staged, bound, first :=
      Prepare(batch[k]), Binding(batch, resident, handles, k).value, TakenBefore(batch, k);
      |bound| == |staged| &&
      Content(UploadAll(staging, now, Uploads(staged, BatchOffset(batch, k), handles, first, |staged|)),
        Sources(bound, staged, handles, first, |staged|)[i])
        == InputOf(ks, batch, resident, handles, before, k, i)
  {
    var d, staged, first := batch[k], Prepare(batch[k]), TakenBefore(batch, k);
    var bound := Binding(batch, resident, handles, k).value;
    BoundIsBound(d.inputs, resident, OutputsOf(batch, handles, k), |d.inputs|, i);
    SourceAt(bound, staged, handles, first, |staged|, i);
    Prepared(d, i);
    OwnPlaces(batch, k);
    if d.inputs[i].Host? {
      UploadsLand(staging, now, staged, BatchOffset(batch, k), handles, first, |staged|, i);
    } else {
      DeviceSourceHolds(ks, batch, resident, handles, before, now, k, i);
      UploadsElsewhere(staging, now, staged, BatchOffset(batch, k), handles, first, |staged|, bound[i].handle);
    }
  }

  /** A resident or an earlier output is none of the dispatch's own buffers, and holds what it should. */
  lemma DeviceSourceHolds(ks: Kernels, batch: seq<Dispatch>, resident: map<nat, nat>, handles: seq<nat>, before: Memory,
      now: Memory, k: nat, i: nat)
    requires k < |batch| && RanTo(ks, batch, resident, handles, before, now, k) && Separate(batch, resident, handles)
    requires i < |batch[k].inputs| && !batch[k].inputs[i].Host?
    requires BindInput(batch[k].inputs[i], resident, OutputsOf(batch, handles, k)).Success?
    ensures var h := BindInput(batch[k].inputs[i], resident, OutputsOf(batch, handles, k)).value.handle;
      NotAt(handles, TakenBefore(batch, k), TakenBefore(batch, k) + Hosts(batch[k]), h) &&
        Content(now, h) == InputOf(ks, batch, resident, handles, before, k, i)
  {
    OwnPlaces(batch, k);
    var from, to := TakenBefore(batch, k), TakenBefore(batch, k) + Hosts(batch[k]);
    if batch[k].inputs[i].Produced? {
      var j, o := batch[k].inputs[i].dispatch, batch[k].inputs[i].ordinal;
      TakenGrows(batch, j, k);
      assert OutputsOf(batch, handles, k)[j] == OutputHandles(batch, handles, j);
      PlacesDiffer(handles, TakenBefore(batch, j) + Hosts(batch[j]) + o, from, to);
      assert Content(now, OutputHandles(batch, handles, j)[o]) == OutputOf(ks, batch, resident, handles, before, j, o);
    } else {
      var h := resident[batch[k].inputs[i].id];
      OutsideHasNoPlace(handles, h, from, to);
      OutsideHasNoPlace(handles, h, 0, from);
    }
  }

  lemma InputsHold(ks: Kernels, staging: Bytes, batch: seq<Dispatch>, resident: map<nat, nat>, handles: seq<nat>,
      before: Memory, now: Memory, k: nat)
    requires k < |batch| && RanTo(ks, batch, resident, handles, before, now, k) && Separate(batch, resident, handles)
    requires Binding(batch, resident, handles, k).Success? &&
      Laid(staging, Prepare(batch[k]), BatchOffset(batch, k), |batch[k].inputs|)
    ensures var c := CommandOf(batch, resident, handles, k);
      Contents(UploadAll(staging, now, c.uploads), c.sources) ==
        InputsOf(ks, batch, resident, handles, before, k, |batch[k].inputs|)
  {
    var staged, bound, first := Prepare(batch[k]), Binding(batch, resident, handles, k).value, TakenBefore(batch, k);
    var sources := Sources(bound, staged, handles, first, |staged|);
    var ready := UploadAll(staging, now, Uploads(staged, BatchOffset(batch, k), handles, first, |staged|));
    var inputs := InputsOf(ks, batch, resident, handles, before, k, |batch[k].inputs|);
    assert |sources| == |inputs|;
    forall i: nat | i < |inputs| ensures Contents(ready, sources)[i] == inputs[i] {
      SourceHolds(ks, staging, batch, resident, handles, before, now, k, i);
      InputAt(ks, batch, resident, handles, before, k, |inputs|, i);
    }
  }

  lemma CommandParts(batch: seq<Dispatch>, resident: map<nat, nat>, handles: seq<nat>, k: nat)
    requires k < |batch| && Binding(batch, resident, handles, k).Success?
    ensures var c := CommandOf(batch, resident, handles, k);
      && c.kernel == batch[k].kernel
      && c.uploads ==
           Uploads(Prepare(batch[k]), BatchOffset(batch, k), handles, TakenBefore(batch, k), |Prepare(batch[k])|)
      && c.writes == OutputHandles(batch, handles, k)
  {
  }

  /** Executing dispatch `k`'s command leaves every buffer but its own as it was. */
  lemma OthersStay(ks: Kernels, staging: Bytes, batch: seq<Dispatch>, resident: map<nat, nat>, handles: seq<nat>,
      now: Memory, k: nat, h: nat)
    requires k < |batch| && Binding(batch, resident, handles, k).Success? &&
      NotAt(handles, TakenBefore(batch, k), TakenBefore(batch, k + 1), h)
    ensures Content(Execute(ks, staging, now, CommandOf(batch, resident, handles, k)), h) == Content(now, h)
  {
    CommandParts(batch, resident, handles, k);
    var c, staged, first := CommandOf(batch, resident, handles, k), Prepare(batch[k]), TakenBefore(batch, k);
    OwnPlaces(batch, k);
    UploadsElsewhere(staging, now, staged, BatchOffset(batch, k), handles, first, |staged|, h);
    var ready := UploadAll(staging, now, c.uploads);
    WritesElsewhere(ks, c.kernel, Contents(ready, c.sources), ready, c.writes, |c.writes|, h);
  }

  lemma WritesAreDistinct(batch: seq<Dispatch>, resident: map<nat, nat>, handles: seq<nat>, k: nat)
    requires k < |batch| && Separate(batch, resident, handles)
    ensures Distinct(OutputHandles(batch, handles, k))
  {
    DistinctPlaces(handles);
    DistinctPlaces(OutputHandles(batch, handles, k));
    OwnPlaces(batch, k);
  }

  /** And its outputs hold what its kernel makes of its inputs. */
  lemma OutputsHold(ks: Kernels, staging: Bytes, batch: seq<Dispatch>, resident: map<nat, nat>, handles: seq<nat>,
      before: Memory, now: Memory, k: nat, o: nat)
    requires k < |batch| && o < |batch[k].outputs| && RanTo(ks, batch, resident, handles, before, now, k) &&
      Separate(batch, resident, handles)
    requires Binding(batch, resident, handles, k).Success? &&
      Laid(staging, Prepare(batch[k]), BatchOffset(batch, k), |batch[k].inputs|)
    ensures Content(Execute(ks, staging, now, CommandOf(batch, resident, handles, k)),
      OutputHandles(batch, handles, k)[o])
      == OutputOf(ks, batch, resident, handles, before, k, o)
  {
    InputsHold(ks, staging, batch, resident, handles, before, now, k);
    OutputsAreUntouched(ks, staging, batch, resident, handles, before, now, k, o);
    KernelRuns(ks, staging, batch, resident, handles, now, k, o);
  }

  lemma KernelRuns(ks: Kernels, staging: Bytes, batch: seq<Dispatch>, resident: map<nat, nat>, handles: seq<nat>,
      now: Memory, k: nat, o: nat)
    requires k < |batch| && o < |batch[k].outputs| && Binding(batch, resident, handles, k).Success? &&
      Separate(batch, resident, handles)
    ensures var c, h := CommandOf(batch, resident, handles, k), OutputHandles(batch, handles, k)[o];
      var ready := UploadAll(staging, now, c.uploads);
      Content(Execute(ks, staging, now, c), h) ==
        ks.act(batch[k].kernel, o, Contents(ready, c.sources), Content(ready, h))
  {
    CommandParts(batch, resident, handles, k);
    WritesAreDistinct(batch, resident, handles, k);
    var c := CommandOf(batch, resident, handles, k);
    var ready := UploadAll(staging, now, c.uploads);
    WritesLand(ks, c.kernel, Contents(ready, c.sources), ready, c.writes, |c.writes|, o);
  }

  /**
  An output's buffer is none an earlier dispatch or an upload touched: it holds what it held before the batch, pooled
  or new.
   */
  lemma OutputsAreUntouched(ks: Kernels, staging: Bytes, batch: seq<Dispatch>, resident: map<nat, nat>,
      handles: seq<nat>, before: Memory, now: Memory, k: nat, o: nat)
    requires k < |batch| && o < |batch[k].outputs| && RanTo(ks, batch, resident, handles, before, now, k) &&
      Binding(batch, resident, handles, k).Success?
    requires Separate(batch, resident, handles)
    ensures var h := OutputHandles(batch, handles, k)[o];
      Content(UploadAll(staging, now, CommandOf(batch, resident, handles, k).uploads), h) == Content(before, h)
  {
    CommandParts(batch, resident, handles, k);
    OwnPlaces(batch, k);
    var staged, first := Prepare(batch[k]), TakenBefore(batch, k);
    PlacesDiffer(handles, first + Hosts(batch[k]) + o, first, first + Hosts(batch[k]));
    PlacesDiffer(handles, first + Hosts(batch[k]) + o, 0, first);
    UploadsElsewhere(staging, now, staged, BatchOffset(batch, k), handles, first, |staged|,
      At(handles, first + Hosts(batch[k]) + o));
  }

  /** What dispatch `j` wrote is there once dispatch `k` has run, this one's own outputs included. */
  lemma OutputsStand(ks: Kernels, staging: Bytes, batch: seq<Dispatch>, resident: map<nat, nat>, handles: seq<nat>,
      before: Memory, now: Memory, k: nat, j: nat, o: nat)
    requires k < |batch| && RanTo(ks, batch, resident, handles, before, now, k) && Separate(batch, resident, handles)
    requires Binding(batch, resident, handles, k).Success? &&
      Laid(staging, Prepare(batch[k]), BatchOffset(batch, k), |batch[k].inputs|)
    requires j <= k && o < |batch[j].outputs|
    ensures Content(Execute(ks, staging, now, CommandOf(batch, resident, handles, k)),
      OutputHandles(batch, handles, j)[o])
      == OutputOf(ks, batch, resident, handles, before, j, o)
  {
    if j == k {
      OutputsHold(ks, staging, batch, resident, handles, before, now, k, o);
    } else {
      EarlierIsElsewhere(batch, resident, handles, k, j, o);
      OthersStay(ks, staging, batch, resident, handles, now, k, OutputHandles(batch, handles, j)[o]);
    }
  }

  /** A later dispatch takes none of an earlier one's outputs. */
  lemma EarlierIsElsewhere(batch: seq<Dispatch>, resident: map<nat, nat>, handles: seq<nat>, k: nat, j: nat, o: nat)
    requires j < k < |batch| && o < |batch[j].outputs| && Separate(batch, resident, handles)
    ensures NotAt(handles, TakenBefore(batch, k), TakenBefore(batch, k + 1), OutputHandles(batch, handles, j)[o])
  {
    OwnPlaces(batch, k);
    TakenGrows(batch, j, k);
    PlacesDiffer(handles, TakenBefore(batch, j) + Hosts(batch[j]) + o, TakenBefore(batch, k),
      TakenBefore(batch, k + 1));
  }

  /** One more command, one more dispatch. */
  lemma DispatchRuns(ks: Kernels, staging: Bytes, batch: seq<Dispatch>, resident: map<nat, nat>, handles: seq<nat>,
      before: Memory, now: Memory, k: nat)
    requires k < |batch| && RanTo(ks, batch, resident, handles, before, now, k) && Separate(batch, resident, handles)
    requires Binding(batch, resident, handles, k).Success? &&
      Laid(staging, Prepare(batch[k]), BatchOffset(batch, k), |batch[k].inputs|)
    ensures RanTo(ks, batch, resident, handles, before,
      Execute(ks, staging, now, CommandOf(batch, resident, handles, k)), k + 1)
  {
    var after := Execute(ks, staging, now, CommandOf(batch, resident, handles, k));
    OwnPlaces(batch, k);
    forall h: nat | NotAt(handles, 0, TakenBefore(batch, k + 1), h) ensures Content(after, h) == Content(before, h) {
      OthersStay(ks, staging, batch, resident, handles, now, k, h);
    }
    forall j: nat, o: nat | j < k + 1 && o < |batch[j].outputs|
      ensures Content(after, OutputHandles(batch, handles, j)[o]) ==
        OutputOf(ks, batch, resident, handles, before, j, o)
    {
      OutputsStand(ks, staging, batch, resident, handles, before, now, k, j, o);
    }
  }

  lemma ExecuteSnoc(ks: Kernels, staging: Bytes, m: Memory, commands: seq<Command>, k: nat)
    requires k < |commands|
    ensures ExecuteAll(ks, staging, m, commands[..k + 1]) ==
      Execute(ks, staging, ExecuteAll(ks, staging, m, commands[..k]), commands[k])
  {
    assert commands[..k + 1][..k] == commands[..k];
  }

  lemma CommandRuns(ks: Kernels, staging: Bytes, batch: seq<Dispatch>, resident: map<nat, nat>, handles: seq<nat>,
      before: Memory, now: Memory, commands: seq<Command>, k: nat, after: Memory)
    requires Recorded(commands, batch, resident, handles, |batch|) && AllLaid(staging, batch, |batch|) && k < |batch|
    requires Separate(batch, resident, handles) && RanTo(ks, batch, resident, handles, before, now, k)
    requires after == Execute(ks, staging, now, commands[k])
    ensures RanTo(ks, batch, resident, handles, before, after, k + 1)
  {
    assert RecordedAs(commands[k], batch, resident, handles, k);
    DispatchRuns(ks, staging, batch, resident, handles, before, now, k);
  }

  /**
   * Executing a recorded batch over its staging leaves, in each dispatch's output buffers, what
   * running the dispatches one by one would: residents and earlier outputs read as they stand,
   * host inputs read whole and zero-padded, though all were staged before the first ran. Of the
   * buffers it asks only that they are separate.
   */
  lemma BatchIsItsDispatches(ks: Kernels, staging: Bytes, batch: seq<Dispatch>, resident: map<nat, nat>,
      handles: seq<nat>, before: Memory, commands: seq<Command>)
    requires Recorded(commands, batch, resident, handles, |batch|) && AllLaid(staging, batch, |batch|) &&
      Separate(batch, resident, handles)
    ensures RanTo(ks, batch, resident, handles, before, ExecuteAll(ks, staging, before, commands), |batch|)
  {
    var now, k := before, 0;
    assert commands[..0] == [];
    while k < |batch|
      invariant 0 <= k <= |batch| && now == ExecuteAll(ks, staging, before, commands[..k])
      invariant RanTo(ks, batch, resident, handles, before, now, k)
    {
      ExecuteSnoc(ks, staging, before, commands, k);
      var after := Execute(ks, staging, now, commands[k]);
      CommandRuns(ks, staging, batch, resident, handles, before, now, commands, k, after);
      now, k := after, k + 1;
    }
    assert commands[..k] == commands;
  }

  const MAX_DISPATCHES: nat := 64

  /**
   * `run_batch` to the end of its wait, on a device that finishes: refused for its length or by its recording, or the
   * outputs of every dispatch hold what running the dispatches one by one would leave in them,
     on buffers of the host's.
   */
  method RunToItsWait(context: Ledger.Context, staging: array<int>, batch: seq<Dispatch>, ks: Kernels, before: Memory,
      ok: nat -> bool)
    returns (failed: bool, r: Recording, after: Memory)
    requires context.Valid() && staging.Length == BatchOffset(batch, |batch|)
    modifies context, staging
    ensures context.Valid() && Took(context, old(context.books), r.taken)
    ensures !failed ==> 0 < |batch| <= 64 && BatchBinds(batch, ResidentHandles(old(context.resident)))
    ensures failed ==>
      |batch| == 0 || |batch| > 64 || SomeFails(ok) ||
      !BatchBinds(batch, ResidentHandles(old(context.resident)))
    ensures !failed ==>
      RanTo(ks, batch, ResidentHandles(old(context.resident)), HandlesOf(r.taken), before, after, |batch|)
    ensures failed ==> after == before
  {
    r, after := Recording([], [], 0, []), before;
    if |batch| == 0 || |batch| > MAX_DISPATCHES { return true, r, after; }
    var error;
    error, r := RecordBatch(context, staging, batch, ok);
    if error.Some? { return true, r, after; }
    after := Executed(context, old(context.books), staging, batch, ks, before, r);
    return false, r, after;
  }

  method Executed(context: Ledger.Context, ghost start: Ledger.Books, staging: array<int>, batch: seq<Dispatch>,
      ks: Kernels, before: Memory, r: Recording)
    returns (after: Memory)
    requires context.Valid() && Took(context, start, r.taken) && AllLaid(staging[..], batch, |batch|)
    requires Underway(r, batch, ResidentHandles(start.resident), |batch|)
    ensures RanTo(ks, batch, ResidentHandles(start.resident), HandlesOf(r.taken), before, after, |batch|)
  {
    after := ExecuteAll(ks, staging[..], before, r.commands);
    TakenIsSeparate(context, start, batch, r.taken);
    BatchIsItsDispatches(ks, staging[..], batch, ResidentHandles(start.resident), HandlesOf(r.taken), before,
      r.commands);
  }
}
