/**
The buffer ledger: what is resident, what the recycling pool keeps, what a submission
holds, and the byte counters over them.
 */
module Ledger {
  import opened Options
  import opened Scalars
  import opened Sums

  const RECYCLED_PER_SIZE: nat := 4

  datatype Row = Row(resident: int, pooled: int, taken: int, freed: int)

  /** Where a handle is. A handle a failed call dropped is nowhere the context can reach. */
  datatype Place = AtId(id: nat) | InPool(shape: Shape, at: nat) | WithHost | Dropped

  /**
   * The context's maps and counters, the driver's live allocations with their sizes, and three
   * numbers nobody stores: `slack`, the bytes relabels shed from records, and `astray`, the bytes
   * of failed allocations and of dropped buffers.
   */
  datatype Books = Books(
    resident: map<nat, Buffer>,
    recycled: map<Shape, seq<Buffer>>,
    held: map<nat, Buffer>,
    nextId: nat,
    rows: seq<Row>,
    alive: int,
    peak: int,
    physical: map<nat, nat>,
    nextHandle: nat,
    place: map<nat, Place>,
    slack: nat,
    astray: nat)

  function Index(t: Tag): nat {
    match t
    case Output => 0
    case Upload => 1
    case Chain => 2
    case Indirect => 3
  }

  function Bump(rows: seq<Row>, t: Tag, resident: int, pooled: int, taken: int, freed: int): (r: seq<Row>)
    requires |rows| == 4
    ensures |r| == 4
  {
    var row := rows[Index(t)];
    rows[Index(t) := Row(row.resident + resident, row.pooled + pooled, row.taken + taken, row.freed + freed)]
  }

  function Max(a: int, b: int): int {
    if a < b then b else a
  }

  // ---- the operations ----

  /** A buffer from the pool, re-tagged. */
  function TakePooled(b: Books, shape: Shape, tag: Tag): Books
    requires |b.rows| == 4 && Pool(b.recycled, shape) != []
  {
    var pool := b.recycled[shape];
    var buffer := pool[|pool| - 1];
    b.(recycled := b.recycled[shape := pool[..|pool| - 1]],
       held := b.held[buffer.handle := buffer.(tag := tag)],
       place := b.place[buffer.handle := WithHost],
       rows := Bump(b.rows, buffer.tag, 0, 0 - Bytes(shape.0, shape.1), 0, 0))
  }

  /** A new allocation. It is counted before the driver answers. */
  function TakeFresh(b: Books, shape: Shape, tag: Tag, ok: bool): Books
    requires |b.rows| == 4
  {
    var bytes := Bytes(shape.0, shape.1);
    var counted :=
      b.(rows := Bump(b.rows, tag, 0, 0, bytes, 0), alive := b.alive + bytes, peak := Max(b.peak, b.alive + bytes));
    if !ok then counted.(astray := b.astray + bytes)
    else counted.(
      held := b.held[b.nextHandle := Buffer(b.nextHandle, shape.0, shape.1, tag)],
      place := b.place[b.nextHandle := WithHost],
      physical := b.physical[b.nextHandle := bytes],
      nextHandle := b.nextHandle + 1)
  }

  function Allocated(b: Books, padded: nat, kind: Class, tag: Tag, ok: bool): Books
    requires |b.rows| == 4
  {
    if Pool(b.recycled, (padded, kind)) != [] then TakePooled(b, (padded, kind), tag)
    else TakeFresh(b, (padded, kind), tag, ok)
  }

  /** Hand a buffer nobody else owns to the pool of its shape, or to the driver when that is full. */
  function Pooled(b: Books, buffer: Buffer): Books
    requires |b.rows| == 4
  {
    var shape := (buffer.padded, buffer.kind);
    var pool := Pool(b.recycled, shape);
    if |pool| < RECYCLED_PER_SIZE then
      b.(recycled := b.recycled[shape := pool + [buffer]],
         place := b.place[buffer.handle := InPool(shape, |pool|)],
         rows := Bump(b.rows, buffer.tag, 0, BytesOf(buffer), 0, 0))
    else
      b.(recycled := b.recycled[shape := pool],
         place := b.place - {buffer.handle},
         physical := b.physical - {buffer.handle},
         rows := Bump(b.rows, buffer.tag, 0, 0, 0, BytesOf(buffer)),
         alive := b.alive - BytesOf(buffer))
  }

  function Recycled(b: Books, handle: nat): Books
    requires |b.rows| == 4 && handle in b.held
  {
    Pooled(b.(held := b.held - {handle}), b.held[handle])
  }

  /** A buffer becomes resident under the next id. */
  function Issued(b: Books, handle: nat): Books
    requires |b.rows| == 4 && handle in b.held
  {
    var buffer := b.held[handle];
    b.(held := b.held - {handle},
       resident := b.resident[b.nextId := buffer],
       place := b.place[buffer.handle := AtId(b.nextId)],
       rows := Bump(b.rows, buffer.tag, BytesOf(buffer), 0, 0, 0),
       nextId := b.nextId + 1)
  }

  /** Release an id: a no-op when nothing is held under it. */
  function Released(b: Books, id: nat): Books
    requires |b.rows| == 4
  {
    if id !in b.resident then b
    else
      Pooled(WithoutId(b, id), b.resident[id])
  }

  function WithoutId(b: Books, id: nat): Books
    requires |b.rows| == 4 && id in b.resident
  {
    var buffer := b.resident[id];
    b.(resident := b.resident - {id}, rows := Bump(b.rows, buffer.tag, 0 - BytesOf(buffer), 0, 0, 0))
  }

  /** A restated record may not claim more bytes than it did. */
  predicate RelabelFits(b: Books, id: nat, count: nat, kind: Class) {
    id in b.resident && Bytes(count, kind) <= BytesOf(b.resident[id])
  }

  function Relabelled(b: Books, id: nat, count: nat, kind: Class): Books
    requires |b.rows| == 4
  {
    if !RelabelFits(b, id, count, kind) then b
    else
      var buffer := b.resident[id];
      b.(resident := b.resident[id := buffer.(padded := count, kind := kind)],
         rows := Bump(b.rows, buffer.tag, Bytes(count, kind) - BytesOf(buffer), 0, 0, 0),
         slack := b.slack + (BytesOf(buffer) - Bytes(count, kind)))
  }

  /** A failed call forgets a buffer it held. */
  function Forgotten(b: Books, handle: nat): Books
    requires handle in b.held
  {
    b.(held := b.held - {handle}, place := b.place[b.held[handle].handle := Dropped],
      astray := b.astray + BytesOf(b.held[handle]))
  }

  /** The bytes a fetch copies out of a resident, when it is not refused. */
  function FetchBytes(b: Books, id: nat, count: nat): Option<nat> {
    if id !in b.resident || count > b.resident[id].padded then None else Some(Bytes(count, b.resident[id].kind))
  }

  datatype Event =
    | Allocate(padded: nat, kind: Class, tag: Tag, ok: bool)
    | Recycle(handle: nat)
    | Issue(handle: nat)
    | Release(id: nat)
    | Relabel(id: nat, count: nat, kind: Class)
    | Forget(handle: nat)

  function Next(b: Books, e: Event): (r: Books)
    requires |b.rows| == 4
    ensures |r.rows| == 4
  {
    match e
    case Allocate(padded, kind, tag, ok) => Allocated(b, padded, kind, tag, ok)
    case Recycle(handle) => if handle in b.held then Recycled(b, handle) else b
    case Issue(handle) => if handle in b.held then Issued(b, handle) else b
    case Release(id) => Released(b, id)
    case Relabel(id, count, kind) => Relabelled(b, id, count, kind)
    case Forget(handle) => if handle in b.held then Forgotten(b, handle) else b
  }

  // ---- what every run keeps ----

  /** The record names a live allocation at least as large, and stands where the handle's place says. */
  ghost predicate RecordFits(b: Books, buffer: Buffer, at: Place) {
    && buffer.handle in b.physical && BytesOf(buffer) <= b.physical[buffer.handle]
    && buffer.handle in b.place && b.place[buffer.handle] == at
  }

  ghost predicate Owned(b: Books) {
    && (forall id :: id in b.resident ==> RecordFits(b, b.resident[id], AtId(id)) && id < b.nextId)
    && (forall s, k :: s in b.recycled && 0 <= k < |b.recycled[s]| ==> RecordFits(b, b.recycled[s][k], InPool(s, k)))
    && (forall h :: h in b.held ==> b.held[h].handle == h && RecordFits(b, b.held[h], WithHost))
    && (forall h :: h in b.physical || h in b.place ==> h < b.nextHandle)
  }

  ghost predicate Shaped(b: Books) {
    && (forall s :: s in b.recycled ==> |b.recycled[s]| <= RECYCLED_PER_SIZE)
    && (forall s, k :: s in b.recycled && 0 <= k < |b.recycled[s]| ==>
         (b.recycled[s][k].padded, b.recycled[s][k].kind) == s)
  }

  ghost predicate Counted(b: Books) {
    && |b.rows| == 4
    && (forall t ::
         b.rows[Index(t)].resident == SumMap(b.resident, Some(t)) &&
         b.rows[Index(t)].pooled == SumPool(b.recycled, Some(t)))
    && b.alive == SumMap(b.resident, None) + SumPool(b.recycled, None) + SumMap(b.held, None) + b.slack + b.astray
    && b.alive <= b.peak
  }

  ghost predicate Inv(b: Books) {
    Counted(b) && Owned(b) && Shaped(b)
  }

  lemma TakePooledKeeps(b: Books, shape: Shape, tag: Tag)
    requires Inv(b) && Pool(b.recycled, shape) != []
    ensures Inv(TakePooled(b, shape, tag))
  {
    var pool := b.recycled[shape];
    var buffer := pool[|pool| - 1];
    var r := TakePooled(b, shape, tag);
    assert RecordFits(b, buffer, InPool(shape, |pool| - 1));
    assert buffer.handle !in b.held;
    TakePooledCounts(b, shape, tag);
    PooledLeaves(b, r, shape, buffer);
  }

  lemma TakePooledCounts(b: Books, shape: Shape, tag: Tag)
    requires Counted(b) && Pool(b.recycled, shape) != []
    requires var last := b.recycled[shape][|b.recycled[shape]| - 1];
      last.handle !in b.held && (last.padded, last.kind) == shape
    ensures Counted(TakePooled(b, shape, tag))
  {
    var pool := b.recycled[shape];
    var buffer := pool[|pool| - 1];
    assert b.held - {buffer.handle} == b.held;
    SumWith(b.held, buffer.handle, buffer.(tag := tag), None);
    forall row: Option<Tag>
      ensures SumPool(TakePooled(b, shape, tag).recycled, row) + Weight(buffer, row) == SumPool(b.recycled, row)
    {
      PoolWith(b.recycled, shape, pool[..|pool| - 1], row);
    }
  }

  /** Taking a pool's last buffer moves no other record. */
  lemma PooledLeaves(b: Books, r: Books, shape: Shape, buffer: Buffer)
    requires Owned(b) && Shaped(b) && shape in b.recycled && b.recycled[shape] != [] &&
      buffer == b.recycled[shape][|b.recycled[shape]| - 1]
    requires r.resident == b.resident && r.nextId == b.nextId && r.physical == b.physical &&
      r.nextHandle == b.nextHandle
    requires r.recycled == b.recycled[shape := b.recycled[shape][..|b.recycled[shape]| - 1]]
    requires exists tag :: r.held == b.held[buffer.handle := buffer.(tag := tag)]
    requires r.place == b.place[buffer.handle := WithHost]
    ensures Owned(r) && Shaped(r)
  {
    assert RecordFits(b, buffer, InPool(shape, |b.recycled[shape]| - 1));
    forall id | id in r.resident ensures RecordFits(r, r.resident[id], AtId(id)) {
      assert RecordFits(b, b.resident[id], AtId(id));
    }
    forall s, k | s in r.recycled && 0 <= k < |r.recycled[s]| ensures RecordFits(r, r.recycled[s][k], InPool(s, k)) {
      assert RecordFits(b, b.recycled[s][k], InPool(s, k));
    }
    forall h | h in r.held ensures r.held[h].handle == h && RecordFits(r, r.held[h], WithHost) {
      if h != buffer.handle { assert RecordFits(b, b.held[h], WithHost); }
    }
  }

  lemma TakeFreshKeeps(b: Books, shape: Shape, tag: Tag, ok: bool)
    requires Inv(b)
    ensures Inv(TakeFresh(b, shape, tag, ok))
  {
    if ok { FreshPlaces(b, shape, tag); } else { SameRecords(b, TakeFresh(b, shape, tag, ok)); }
    FreshHeld(b, shape, tag);
    FreshCounts(b, shape, tag, ok);
  }

  lemma FreshHeld(b: Books, shape: Shape, tag: Tag)
    requires Owned(b)
    ensures SumMap(b.held[b.nextHandle := Buffer(b.nextHandle, shape.0, shape.1, tag)], None) ==
      SumMap(b.held, None) + Bytes(shape.0, shape.1)
  {
    assert forall h :: h in b.held ==> RecordFits(b, b.held[h], WithHost) && h < b.nextHandle;
    assert b.held - {b.nextHandle} == b.held;
    SumWith(b.held, b.nextHandle, Buffer(b.nextHandle, shape.0, shape.1, tag), None);
  }

  lemma FreshCounts(b: Books, shape: Shape, tag: Tag, ok: bool)
    requires Counted(b)
    requires ok ==>
      SumMap(b.held[b.nextHandle := Buffer(b.nextHandle, shape.0, shape.1, tag)], None) ==
      SumMap(b.held, None) + Bytes(shape.0, shape.1)
    ensures Counted(TakeFresh(b, shape, tag, ok))
  {
  }

  lemma FreshPlaces(b: Books, shape: Shape, tag: Tag)
    requires Inv(b)
    ensures Owned(TakeFresh(b, shape, tag, true)) && Shaped(TakeFresh(b, shape, tag, true))
  {
    var r := TakeFresh(b, shape, tag, true);
    forall id | id in r.resident ensures RecordFits(r, r.resident[id], AtId(id)) {
      assert RecordFits(b, b.resident[id], AtId(id));
    }
    forall s, k | s in r.recycled && 0 <= k < |r.recycled[s]| ensures RecordFits(r, r.recycled[s][k], InPool(s, k)) {
      assert RecordFits(b, b.recycled[s][k], InPool(s, k));
    }
    forall h | h in r.held ensures r.held[h].handle == h && RecordFits(r, r.held[h], WithHost) {
      if h != b.nextHandle { assert RecordFits(b, b.held[h], WithHost); }
    }
  }

  /** Nothing but counters moved. */
  lemma SameRecords(b: Books, r: Books)
    requires Owned(b) && Shaped(b)
    requires r.resident == b.resident && r.recycled == b.recycled && r.held == b.held && r.nextId == b.nextId
    requires r.physical == b.physical && r.nextHandle == b.nextHandle && r.place == b.place
    ensures Owned(r) && Shaped(r)
  {
    forall id | id in r.resident
      ensures RecordFits(r, r.resident[id], AtId(id))
    {
      assert RecordFits(b, b.resident[id], AtId(id));
    }
    forall s, k | s in r.recycled && 0 <= k < |r.recycled[s]| ensures RecordFits(r, r.recycled[s][k], InPool(s, k)) {
      assert RecordFits(b, b.recycled[s][k], InPool(s, k));
    }
    forall h | h in r.held ensures RecordFits(r, r.held[h], WithHost) { assert RecordFits(b, b.held[h], WithHost); }
  }

  /** Nothing in the books names the buffer's allocation. */
  ghost predicate Nowhere(b: Books, buffer: Buffer) {
    && Owned(b) && Shaped(b)
    && buffer.handle in b.physical && BytesOf(buffer) <= b.physical[buffer.handle]
    && (forall id :: id in b.resident ==> b.resident[id].handle != buffer.handle)
    && (forall s, k :: s in b.recycled && 0 <= k < |b.recycled[s]| ==> b.recycled[s][k].handle != buffer.handle)
    && buffer.handle !in b.held
  }

  /** The counters while the buffer's bytes are in no map. */
  ghost predicate CountedWithout(b: Books, buffer: Buffer) {
    && |b.rows| == 4
    && (forall t ::
         b.rows[Index(t)].resident == SumMap(b.resident, Some(t)) &&
         b.rows[Index(t)].pooled == SumPool(b.recycled, Some(t)))
    && b.alive ==
         SumMap(b.resident, None) + SumPool(b.recycled, None) + SumMap(b.held, None) + b.slack + b.astray +
         BytesOf(buffer)
    && b.alive <= b.peak
  }

  lemma PooledKeeps(b: Books, buffer: Buffer)
    requires Nowhere(b, buffer) && CountedWithout(b, buffer)
    ensures Inv(Pooled(b, buffer))
  {
    PooledCounts(b, buffer);
    if |Pool(b.recycled, (buffer.padded, buffer.kind))| < RECYCLED_PER_SIZE {
      KeptInPool(b, buffer);
    } else {
      FreedToDriver(b, buffer);
    }
  }

  lemma PooledCounts(b: Books, buffer: Buffer)
    requires CountedWithout(b, buffer)
    ensures Counted(Pooled(b, buffer))
  {
    forall t ensures Pooled(b, buffer).rows[Index(t)].resident == SumMap(b.resident, Some(t)) &&
      Pooled(b, buffer).rows[Index(t)].pooled == SumPool(Pooled(b, buffer).recycled, Some(t))
    {
      PooledRow(b, buffer, t);
      PooledSum(b, buffer, Some(t));
    }
    PooledSum(b, buffer, None);
    PooledAlive(b, buffer);
  }

  lemma PooledAlive(b: Books, buffer: Buffer)
    requires |b.rows| == 4
    ensures var r := Pooled(b, buffer);
      && r.alive == b.alive - BytesOf(buffer) + PooledGain(b, buffer, None) && r.peak == b.peak
      && r.resident == b.resident && r.held == b.held && r.slack == b.slack && r.astray == b.astray
  {
  }

  lemma PooledRow(b: Books, buffer: Buffer, t: Tag)
    requires |b.rows| == 4
    ensures var r := Pooled(b, buffer).rows[Index(t)];
      r.resident == b.rows[Index(t)].resident && r.pooled == b.rows[Index(t)].pooled + PooledGain(b, buffer, Some(t))
  {
  }

  function PooledGain(b: Books, buffer: Buffer, row: Option<Tag>): nat {
    if |Pool(b.recycled, (buffer.padded, buffer.kind))| < RECYCLED_PER_SIZE then Weight(buffer, row) else 0
  }

  lemma PooledSum(b: Books, buffer: Buffer, row: Option<Tag>)
    requires |b.rows| == 4
    ensures SumPool(Pooled(b, buffer).recycled, row) == SumPool(b.recycled, row) + PooledGain(b, buffer, row)
  {
    var shape := (buffer.padded, buffer.kind);
    var pool := Pool(b.recycled, shape);
    PoolWith(b.recycled, shape, if |pool| < RECYCLED_PER_SIZE then pool + [buffer] else pool, row);
    SumSnoc(pool, buffer, row);
  }

  lemma KeptInPool(b: Books, buffer: Buffer)
    requires Nowhere(b, buffer) && |b.rows| == 4 && |Pool(b.recycled, (buffer.padded, buffer.kind))| < RECYCLED_PER_SIZE
    ensures Owned(Pooled(b, buffer)) && Shaped(Pooled(b, buffer))
  {
    var r := Pooled(b, buffer);
    forall id | id in r.resident
      ensures RecordFits(r, r.resident[id], AtId(id))
    {
      assert RecordFits(b, b.resident[id], AtId(id));
    }
    forall s, k | s in r.recycled && 0 <= k < |r.recycled[s]| ensures RecordFits(r, r.recycled[s][k], InPool(s, k)) {
      if s in b.recycled && k < |b.recycled[s]| { assert RecordFits(b, b.recycled[s][k], InPool(s, k)); }
    }
    forall h | h in r.held
      ensures r.held[h].handle == h && RecordFits(r, r.held[h], WithHost)
    {
      assert RecordFits(b, b.held[h], WithHost);
    }
  }

  lemma FreedToDriver(b: Books, buffer: Buffer)
    requires Nowhere(b, buffer) && |b.rows| == 4 &&
      |Pool(b.recycled, (buffer.padded, buffer.kind))| >= RECYCLED_PER_SIZE
    ensures Owned(Pooled(b, buffer)) && Shaped(Pooled(b, buffer))
  {
    var r := Pooled(b, buffer);
    assert r.recycled == b.recycled;
    forall id | id in r.resident
      ensures RecordFits(r, r.resident[id], AtId(id))
    {
      assert RecordFits(b, b.resident[id], AtId(id));
    }
    forall s, k | s in r.recycled && 0 <= k < |r.recycled[s]| ensures RecordFits(r, r.recycled[s][k], InPool(s, k)) {
      assert RecordFits(b, b.recycled[s][k], InPool(s, k));
    }
    forall h | h in r.held
      ensures r.held[h].handle == h && RecordFits(r, r.held[h], WithHost)
    {
      assert RecordFits(b, b.held[h], WithHost);
    }
  }

  /** A buffer out of the host's hands is nowhere. */
  lemma HeldIsNowhere(b: Books, handle: nat)
    requires Inv(b) && handle in b.held
    ensures Nowhere(b.(held := b.held - {handle}), b.held[handle]) &&
      CountedWithout(b.(held := b.held - {handle}), b.held[handle])
  {
    var r := b.(held := b.held - {handle});
    SumWithout(b.held, handle, None);
    TakenOut(b, r, b.held[handle], WithHost);
  }

  lemma ResidentIsNowhere(b: Books, id: nat)
    requires Inv(b) && id in b.resident
    ensures Nowhere(WithoutId(b, id), b.resident[id]) && CountedWithout(WithoutId(b, id), b.resident[id])
  {
    var buffer := b.resident[id];
    var r := WithoutId(b, id);
    forall row: Option<Tag> ensures SumMap(b.resident, row) == Weight(buffer, row) + SumMap(r.resident, row) {
      SumWithout(b.resident, id, row);
    }
    TakenOut(b, r, buffer, AtId(id));
  }

  /** One handle is in one place, so out of that place it is nowhere. */
  lemma TakenOut(b: Books, r: Books, buffer: Buffer, at: Place)
    requires Inv(b) && RecordFits(b, buffer, at) && (at == WithHost || at.AtId?)
    requires r.physical == b.physical && r.place == b.place && r.nextHandle == b.nextHandle && r.nextId == b.nextId &&
      r.recycled == b.recycled
    requires at == WithHost ==> r.resident == b.resident && r.held == b.held - {buffer.handle}
    requires at.AtId? ==> r.resident == b.resident - {at.id} && r.held == b.held
    ensures Owned(r) && Shaped(r)
    ensures forall id :: id in r.resident ==> r.resident[id].handle != buffer.handle
    ensures forall s, k :: s in r.recycled && 0 <= k < |r.recycled[s]| ==> r.recycled[s][k].handle != buffer.handle
    ensures buffer.handle !in r.held
  {
    forall id | id in r.resident
      ensures RecordFits(r, r.resident[id], AtId(id)) && r.resident[id].handle != buffer.handle
    {
      assert RecordFits(b, b.resident[id], AtId(id));
    }
    forall s, k | s in r.recycled && 0 <= k < |r.recycled[s]|
      ensures RecordFits(r, r.recycled[s][k], InPool(s, k)) && r.recycled[s][k].handle != buffer.handle
    {
      assert RecordFits(b, b.recycled[s][k], InPool(s, k));
    }
    forall h | h in r.held
      ensures RecordFits(r, r.held[h], WithHost) && h != buffer.handle
    {
      assert RecordFits(b, b.held[h], WithHost);
    }
  }

  lemma IssuedKeeps(b: Books, handle: nat)
    requires Inv(b) && handle in b.held
    ensures Inv(Issued(b, handle))
  {
    HeldIsNowhere(b, handle);
    IssuedCounts(b, handle);
    IssuedPlaces(b, handle);
  }

  lemma IssuedCounts(b: Books, handle: nat)
    requires handle in b.held && CountedWithout(b.(held := b.held - {handle}), b.held[handle])
    requires b.nextId !in b.resident
    ensures Counted(Issued(b, handle))
  {
    var buffer := b.held[handle];
    assert b.resident - {b.nextId} == b.resident;
    forall row: Option<Tag>
      ensures SumMap(Issued(b, handle).resident, row) == Weight(buffer, row) + SumMap(b.resident, row)
    {
      SumWith(b.resident, b.nextId, buffer, row);
    }
  }

  lemma IssuedPlaces(b: Books, handle: nat)
    requires |b.rows| == 4 && handle in b.held && Nowhere(b.(held := b.held - {handle}), b.held[handle])
    ensures Owned(Issued(b, handle)) && Shaped(Issued(b, handle))
  {
    var out := b.(held := b.held - {handle});
    var r := Issued(b, handle);
    forall id | id in r.resident ensures RecordFits(r, r.resident[id], AtId(id)) {
      if id != b.nextId { assert RecordFits(out, out.resident[id], AtId(id)); }
    }
    forall s, k | s in r.recycled && 0 <= k < |r.recycled[s]| ensures RecordFits(r, r.recycled[s][k], InPool(s, k)) {
      assert RecordFits(out, out.recycled[s][k], InPool(s, k));
    }
    forall h | h in r.held ensures RecordFits(r, r.held[h], WithHost) { assert RecordFits(out, out.held[h], WithHost); }
  }

  lemma RelabelledKeeps(b: Books, id: nat, count: nat, kind: Class)
    requires Inv(b) && RelabelFits(b, id, count, kind)
    ensures Inv(Relabelled(b, id, count, kind))
  {
    var buffer := b.resident[id];
    var r := Relabelled(b, id, count, kind);
    assert RecordFits(b, buffer, AtId(id));
    forall row: Option<Tag>
      ensures SumMap(r.resident, row) + Weight(buffer, row) ==
        SumMap(b.resident, row) + Weight(buffer.(padded := count, kind := kind), row)
    {
      SumWithout(b.resident, id, row);
      SumWith(b.resident, id, buffer.(padded := count, kind := kind), row);
    }
    forall i | i in r.resident
      ensures RecordFits(r, r.resident[i], AtId(i))
    {
      assert RecordFits(b, b.resident[i], AtId(i));
    }
    forall s, k | s in r.recycled && 0 <= k < |r.recycled[s]| ensures RecordFits(r, r.recycled[s][k], InPool(s, k)) {
      assert RecordFits(b, b.recycled[s][k], InPool(s, k));
    }
    forall h | h in r.held ensures RecordFits(r, r.held[h], WithHost) { assert RecordFits(b, b.held[h], WithHost); }
  }

  lemma ForgottenKeeps(b: Books, handle: nat)
    requires Inv(b) && handle in b.held
    ensures Inv(Forgotten(b, handle))
  {
    HeldIsNowhere(b, handle);
    var out := b.(held := b.held - {handle});
    var r := Forgotten(b, handle);
    forall i | i in r.resident
      ensures RecordFits(r, r.resident[i], AtId(i))
    {
      assert RecordFits(out, out.resident[i], AtId(i));
    }
    forall s, k | s in r.recycled && 0 <= k < |r.recycled[s]| ensures RecordFits(r, r.recycled[s][k], InPool(s, k)) {
      assert RecordFits(out, out.recycled[s][k], InPool(s, k));
    }
    forall h | h in r.held ensures RecordFits(r, r.held[h], WithHost) { assert RecordFits(out, out.held[h], WithHost); }
  }

  lemma NextKeeps(b: Books, e: Event)
    requires Inv(b)
    ensures Inv(Next(b, e))
  {
    match e {
      case Allocate(padded, kind, tag, ok) =>
        if Pool(b.recycled, (padded, kind)) != [] {
          TakePooledKeeps(b, (padded, kind), tag);
        } else {
          TakeFreshKeeps(b, (padded, kind), tag, ok);
        }
      case Recycle(handle) =>
        if handle in b.held {
          HeldIsNowhere(b, handle);
          PooledKeeps(b.(held := b.held - {handle}), b.held[handle]);
        }
      case Issue(handle) => if handle in b.held { IssuedKeeps(b, handle); }
      case Release(id) =>
        if id in b.resident {
          ResidentIsNowhere(b, id);
          PooledKeeps(WithoutId(b, id), b.resident[id]);
        }
      case Relabel(id, count, kind) => if RelabelFits(b, id, count, kind) { RelabelledKeeps(b, id, count, kind); }
      case Forget(handle) => if handle in b.held { ForgottenKeeps(b, handle); }
    }
  }

  // ---- whole runs ----

  ghost function Run(b: Books, events: seq<Event>): (r: Books)
    requires |b.rows| == 4
    ensures |r.rows| == 4
  {
    if events == [] then b else Next(Run(b, events[..|events| - 1]), events[|events| - 1])
  }

  lemma {:induction false} RunKeeps(b: Books, events: seq<Event>)
    requires Inv(b)
    ensures Inv(Run(b, events))
  {
    if events != [] {
      RunKeeps(b, events[..|events| - 1]);
      NextKeeps(Run(b, events[..|events| - 1]), events[|events| - 1]);
    }
  }

  lemma EmptyHolds(b: Books)
    requires Fresh(b)
    ensures Inv(b) && SumSizes(b.physical) == 0
  {
    forall row: Option<Tag>
      ensures SumMap(b.resident, row) == 0 && SumPool(b.recycled, row) == 0 && SumMap(b.held, row) == 0
    {
      NothingSums(b.resident, b.recycled, row);
      NothingSums(b.held, b.recycled, row);
    }
    assert b.physical == map[];
  }

  /** A context that has done nothing. */
  ghost predicate Fresh(b: Books) {
    && |b.resident| == |b.recycled| == |b.held| == |b.physical| == |b.place| == 0
    && |b.rows| == 4 && b.alive == b.peak == b.slack == b.astray == 0
    && (forall t :: b.rows[Index(t)] == Row(0, 0, 0, 0))
  }

  /** Some run of the context's operations, the driver failing as it may, leads here. */
  ghost predicate Reached(b: Books) {
    exists start, events :: Fresh(start) && b == Run(start, events)
  }

  lemma ReachedHolds(b: Books)
    requires Reached(b)
    ensures Inv(b)
  {
    var start, events :| Fresh(start) && b == Run(start, events);
    EmptyHolds(start);
    RunKeeps(start, events);
  }

  lemma ReachedNext(b: Books, e: Event)
    requires Reached(b)
    ensures |b.rows| == 4 && Reached(Next(b, e))
  {
    ReachedHolds(b);
    var start, events :| Fresh(start) && b == Run(start, events);
    assert (events + [e])[..|events|] == events;
    assert Run(start, events + [e]) == Next(b, e);
  }

  /** Handle `h` is named by whatever stands at a place. */
  ghost predicate Names(b: Books, at: Place, h: nat) {
    match at
    case AtId(id) => id in b.resident && b.resident[id].handle == h
    case InPool(s, k) => s in b.recycled && k < |b.recycled[s]| && b.recycled[s][k].handle == h
    case WithHost => h in b.held
    case Dropped => false
  }

  /** Over every run an allocation has at most one owner: one id, or one pool place, or one holder. */
  lemma OneOwner(b: Books, p: Place, q: Place, h: nat)
    requires Reached(b) && Names(b, p, h) && Names(b, q, h)
    ensures p == q
  {
    ReachedHolds(b);
    NamedIsPlaced(b, p, h);
    NamedIsPlaced(b, q, h);
  }

  lemma NamedIsPlaced(b: Books, p: Place, h: nat)
    requires Owned(b) && Names(b, p, h)
    ensures h in b.place && b.place[h] == p
  {
    match p {
      case AtId(id) => assert RecordFits(b, b.resident[id], AtId(id));
      case InPool(s, k) => assert RecordFits(b, b.recycled[s][k], InPool(s, k));
      case WithHost => assert RecordFits(b, b.held[h], WithHost);
      case Dropped =>
    }
  }

  /** Through any mix of relabels, recycling and reuse, a fetch copies no byte past the allocation. */
  lemma FetchStaysInside(b: Books, id: nat, count: nat)
    requires Reached(b) && FetchBytes(b, id, count).Some?
    ensures b.resident[id].handle in b.physical && FetchBytes(b, id, count).value <= b.physical[b.resident[id].handle]
  {
    ReachedHolds(b);
    assert RecordFits(b, b.resident[id], AtId(id));
    FewerAreSmaller(count, b.resident[id].padded, b.resident[id].kind);
  }

  lemma FewerAreSmaller(a: nat, b: nat, kind: Class)
    requires a <= b
    ensures Bytes(a, kind) <= Bytes(b, kind)
  {
  }

  /** An event on which the driver fails nothing and no buffer is forgotten. */
  predicate NoDriverError(e: Event) {
    !e.Forget? && (e.Allocate? ==> e.ok)
  }

  lemma {:induction false} NothingAstray(b: Books, events: seq<Event>)
    requires |b.rows| == 4 && b.astray == 0 && forall i :: 0 <= i < |events| ==> NoDriverError(events[i])
    ensures Run(b, events).astray == 0
  {
    if events != [] {
      NothingAstray(b, events[..|events| - 1]);
      NotAstray(Run(b, events[..|events| - 1]), events[|events| - 1]);
    }
  }

  lemma NotAstray(b: Books, e: Event)
    requires |b.rows| == 4 && NoDriverError(e)
    ensures Next(b, e).astray == b.astray
  {
  }

  ghost predicate ReachedCleanly(b: Books) {
    exists start, events :: Fresh(start) && b == Run(start, events) && forall i :: 0 <= i < |events| ==>
      NoDriverError(events[i])
  }

  /**
  Without driver errors the counters are the sums over the maps, never below zero, and `alive` is what records claim
  plus what relabels shed.
   */
  lemma CountersAreSums(b: Books, t: Tag)
    requires ReachedCleanly(b)
    ensures |b.rows| == 4
    ensures b.rows[Index(t)].resident == SumMap(b.resident, Some(t)) >= 0
    ensures b.rows[Index(t)].pooled == SumPool(b.recycled, Some(t)) >= 0
    ensures b.alive == SumMap(b.resident, None) + SumPool(b.recycled, None) + SumMap(b.held, None) + b.slack
    ensures 0 <= b.alive <= b.peak
    ensures forall s :: s in b.recycled ==> |b.recycled[s]| <= RECYCLED_PER_SIZE
  {
    var start, events :| Fresh(start) && b == Run(start, events) && forall i :: 0 <= i < |events| ==>
      NoDriverError(events[i]);
    ReachedHolds(b);
    NothingAstray(start, events);
  }

  // ---- what the driver holds ----

  ghost function SumSizes(m: map<nat, nat>): nat {
    if m == map[] then 0 else
      var k: nat :| k in m;
      m[k] + SumSizes(m - {k})
  }

  lemma {:induction false} SizesWithout(m: map<nat, nat>, k: nat)
    requires k in m
    ensures SumSizes(m) == m[k] + SumSizes(m - {k})
    decreases |m|
  {
    var j: nat :| j in m && SumSizes(m) == m[j] + SumSizes(m - {j});
    if j != k {
      SizesWithout(m - {j}, k);
      SizesWithout(m - {k}, j);
      assert m - {j} - {k} == m - {k} - {j};
    }
  }

  /** What freeing past the pool's cap leaves counted though the driver took it back. */
  ghost function FreeDrift(b: Books, buffer: Buffer): nat
    requires buffer.handle in b.physical && BytesOf(buffer) <= b.physical[buffer.handle]
  {
    if |Pool(b.recycled, (buffer.padded, buffer.kind))| < RECYCLED_PER_SIZE then 0
    else b.physical[buffer.handle] - BytesOf(buffer)
  }

  /** How far one event moves `alive` from what the driver holds. */
  ghost function DriftOf(b: Books, e: Event): nat
    requires Owned(b)
  {
    match e
    case Allocate(padded, kind, _, ok) => if Pool(b.recycled, (padded, kind)) == [] && !ok then Bytes(padded, kind)
      else 0
    case Recycle(handle) =>
      if handle !in b.held then 0
      else
        assert RecordFits(b, b.held[handle], WithHost);
        FreeDrift(b, b.held[handle])
    case Release(id) =>
      if id !in b.resident then 0
      else
        assert RecordFits(b, b.resident[id], AtId(id));
        FreeDrift(b, b.resident[id])
    case _ => 0
  }

  lemma PooledDrifts(b: Books, buffer: Buffer)
    requires |b.rows| == 4 && buffer.handle in b.physical && BytesOf(buffer) <= b.physical[buffer.handle]
    ensures var r := Pooled(b, buffer);
      r.alive - SumSizes(r.physical) == b.alive - SumSizes(b.physical) + FreeDrift(b, buffer)
  {
    SizesWithout(b.physical, buffer.handle);
  }

  /** `alive` leaves what the driver holds only by a failed allocation, or by freeing a buffer a relabel shrank. */
  lemma NextDrifts(b: Books, e: Event)
    requires Inv(b)
    ensures var r := Next(b, e); r.alive - SumSizes(r.physical) == b.alive - SumSizes(b.physical) + DriftOf(b, e)
  {
    match e {
      case Allocate(padded, kind, tag, ok) =>
        if Pool(b.recycled, (padded, kind)) == [] && ok {
          var r := TakeFresh(b, (padded, kind), tag, ok);
          SizesWithout(r.physical, b.nextHandle);
          assert r.physical - {b.nextHandle} == b.physical;
        }
      case Recycle(handle) =>
        if handle in b.held {
          assert RecordFits(b, b.held[handle], WithHost);
          PooledDrifts(b.(held := b.held - {handle}), b.held[handle]);
        }
      case Release(id) =>
        if id in b.resident {
          assert RecordFits(b, b.resident[id], AtId(id));
          PooledDrifts(WithoutId(b, id), b.resident[id]);
        }
      case _ =>
    }
  }

  /** What a whole run drifts by. */
  ghost function RunDrift(b: Books, events: seq<Event>): nat
    requires Inv(b)
  {
    if events == [] then 0
    else
      RunKeeps(b, events[..|events| - 1]);
      RunDrift(b, events[..|events| - 1]) + DriftOf(Run(b, events[..|events| - 1]), events[|events| - 1])
  }

  /**
  Over every run: `alive` reports what the driver holds plus the run's drift, so it reports it exactly when nothing
  drifted.
   */
  lemma {:induction false} AliveIsTheDriversAndTheDrift(b: Books, events: seq<Event>)
    requires Fresh(b)
    ensures Inv(b) && Run(b, events).alive == SumSizes(Run(b, events).physical) + RunDrift(b, events)
  {
    EmptyHolds(b);
    if events != [] {
      AliveIsTheDriversAndTheDrift(b, events[..|events| - 1]);
      RunKeeps(b, events[..|events| - 1]);
      NextDrifts(Run(b, events[..|events| - 1]), events[|events| - 1]);
    }
  }

  function Taken(rows: seq<Row>): int
    requires |rows| == 4
  {
    rows[0].taken + rows[1].taken + rows[2].taken + rows[3].taken
  }

  function Freed(rows: seq<Row>): int
    requires |rows| == 4
  {
    rows[0].freed + rows[1].freed + rows[2].freed + rows[3].freed
  }

  lemma BumpMoves(rows: seq<Row>, t: Tag, resident: int, pooled: int, taken: int, freed: int)
    requires |rows| == 4
    ensures var r := Bump(rows, t, resident, pooled, taken, freed);
      Taken(r) == Taken(rows) + taken && Freed(r) == Freed(rows) + freed
  {
  }

  lemma PooledMoves(b: Books, buffer: Buffer)
    requires |b.rows| == 4
    ensures var r := Pooled(b, buffer);
      Taken(r.rows) - Freed(r.rows) - r.alive == Taken(b.rows) - Freed(b.rows) - b.alive
  {
    if |Pool(b.recycled, (buffer.padded, buffer.kind))| < RECYCLED_PER_SIZE {
      BumpMoves(b.rows, buffer.tag, 0, BytesOf(buffer), 0, 0);
    } else {
      BumpMoves(b.rows, buffer.tag, 0, 0, 0, BytesOf(buffer));
    }
  }

  lemma AllocatedMoves(b: Books, padded: nat, kind: Class, tag: Tag, ok: bool)
    requires |b.rows| == 4
    ensures var r := Allocated(b, padded, kind, tag, ok);
      Taken(r.rows) - Freed(r.rows) - r.alive == Taken(b.rows) - Freed(b.rows) - b.alive
  {
    var pool := Pool(b.recycled, (padded, kind));
    if pool != [] {
      BumpMoves(b.rows, pool[|pool| - 1].tag, 0, 0 - Bytes(padded, kind), 0, 0);
    } else {
      BumpMoves(b.rows, tag, 0, 0, Bytes(padded, kind), 0);
    }
  }

  lemma ReleasedMoves(b: Books, id: nat)
    requires |b.rows| == 4
    ensures var r := Released(b, id); Taken(r.rows) - Freed(r.rows) - r.alive == Taken(b.rows) - Freed(b.rows) - b.alive
  {
    if id in b.resident {
      BumpMoves(b.rows, b.resident[id].tag, 0 - BytesOf(b.resident[id]), 0, 0, 0);
      PooledMoves(WithoutId(b, id), b.resident[id]);
    }
  }

  /** No event moves taken less freed but as it moves `alive`. */
  lemma TakenLessFreedMoves(b: Books, e: Event)
    requires |b.rows| == 4
    ensures var r := Next(b, e); Taken(r.rows) - Freed(r.rows) - r.alive == Taken(b.rows) - Freed(b.rows) - b.alive
  {
    match e {
      case Allocate(padded, kind, tag, ok) => AllocatedMoves(b, padded, kind, tag, ok);
      case Recycle(handle) => if handle in b.held { PooledMoves(b.(held := b.held - {handle}), b.held[handle]); }
      case Issue(handle) =>
        if handle in b.held { BumpMoves(b.rows, b.held[handle].tag, BytesOf(b.held[handle]), 0, 0, 0); }
      case Release(id) => ReleasedMoves(b, id);
      case Relabel(id, count, kind) =>
        if RelabelFits(b, id, count, kind) {
          BumpMoves(b.rows, b.resident[id].tag, Bytes(count, kind) - BytesOf(b.resident[id]), 0, 0, 0);
        }
      case Forget(handle) =>
    }
  }

  /**
  Over every run: what the rows say was taken, less what they say was freed, is what the driver holds and the run's
  drift.
   */
  lemma {:induction false} TakenLessFreedIsTheDrivers(b: Books, events: seq<Event>)
    requires Fresh(b)
    ensures Inv(b) && |Run(b, events).rows| == 4
    ensures Taken(Run(b, events).rows) - Freed(Run(b, events).rows) ==
      SumSizes(Run(b, events).physical) + RunDrift(b, events)
  {
    AliveIsTheDriversAndTheDrift(b, events);
    TakenLessFreedIsAlive(b, events);
  }

  lemma {:induction false} TakenLessFreedIsAlive(b: Books, events: seq<Event>)
    requires Fresh(b)
    ensures Taken(Run(b, events).rows) - Freed(Run(b, events).rows) == Run(b, events).alive
  {
    if events == [] {
      assert forall t :: b.rows[Index(t)] == Row(0, 0, 0, 0);
      assert b.rows[Index(Output)] == b.rows[Index(Upload)] == b.rows[Index(Chain)] == b.rows[Index(Indirect)] ==
        Row(0, 0, 0, 0);
    } else {
      TakenLessFreedIsAlive(b, events[..|events| - 1]);
      TakenLessFreedMoves(Run(b, events[..|events| - 1]), events[|events| - 1]);
    }
  }

  // ---- ids ----

  lemma IdStaysGone(b: Books, e: Event, id: nat)
    requires |b.rows| == 4 && id < b.nextId && id !in b.resident
    ensures id < Next(b, e).nextId && id !in Next(b, e).resident
  {
  }

  /** An id once handed out and no longer resident never names anything again. */
  lemma {:induction false} IdsAreNeverReused(b: Books, events: seq<Event>, id: nat)
    requires |b.rows| == 4 && id < b.nextId && id !in b.resident
    ensures id < Run(b, events).nextId && id !in Run(b, events).resident
  {
    if events != [] {
      IdsAreNeverReused(b, events[..|events| - 1], id);
      IdStaysGone(Run(b, events[..|events| - 1]), events[|events| - 1], id);
    }
  }

  /** Releasing an id again changes nothing. */
  lemma ReleaseIsIdempotent(b: Books, id: nat)
    requires |b.rows| == 4
    ensures Released(Released(b, id), id) == Released(b, id) && id !in Released(b, id).resident
  {
  }

  // ---- the context's own methods ----

  /** Issue a list of buffers, in order. */
  ghost function IssuedAll(b: Books, buffers: seq<Buffer>): (r: Books)
    requires |b.rows| == 4
    ensures |r.rows| == 4
  {
    if buffers == [] then b
    else
      var before := IssuedAll(b, buffers[..|buffers| - 1]);
      Next(before, Event.Issue(buffers[|buffers| - 1].handle))
  }

  lemma IssuedSnoc(b: Books, buffers: seq<Buffer>, i: nat)
    requires |b.rows| == 4 && i < |buffers|
    ensures IssuedAll(b, buffers[..i + 1]) == Next(IssuedAll(b, buffers[..i]), Event.Issue(buffers[i].handle))
  {
    assert buffers[..i + 1][..i] == buffers[..i];
  }

  lemma {:induction false} IssuedAllReached(b: Books, buffers: seq<Buffer>)
    requires Reached(b) && |b.rows| == 4
    ensures Reached(IssuedAll(b, buffers))
  {
    if buffers != [] {
      IssuedAllReached(b, buffers[..|buffers| - 1]);
      ReachedNext(IssuedAll(b, buffers[..|buffers| - 1]), Event.Issue(buffers[|buffers| - 1].handle));
    }
  }

  /** The handle an allocation of a shape answers with, when it answers. */
  function HandleFor(b: Books, shape: Shape): nat {
    var pool := Pool(b.recycled, shape);
    if pool != [] then pool[|pool| - 1].handle else b.nextHandle
  }

  /** An allocation never answers with a buffer somebody holds, and a pooled answer has the shape asked for. */
  lemma AllocatedIsNew(b: Books, shape: Shape)
    requires Reached(b)
    ensures HandleFor(b, shape) !in b.held
    ensures Pool(b.recycled, shape) != [] ==>
      var last := b.recycled[shape][|b.recycled[shape]| - 1];
      (last.padded, last.kind) == shape
  {
    ReachedHolds(b);
    var pool := Pool(b.recycled, shape);
    if pool != [] { assert RecordFits(b, b.recycled[shape][|pool| - 1], InPool(shape, |pool| - 1)); }
    assert forall h :: h in b.held ==> RecordFits(b, b.held[h], WithHost) && h < b.nextHandle;
  }

  /** Each id names its buffer, and nothing else that is named is new. */
  ghost predicate NamedBy(before: map<nat, Buffer>, now: map<nat, Buffer>, ids: seq<nat>, buffers: seq<Buffer>) {
    && |ids| == |buffers| && (forall id :: id in now <==> id in before || id in ids)
    && forall i :: 0 <= i < |ids| ==> now[ids[i]] == buffers[i]
  }

  /** What issuing one buffer does to the names. */
  lemma IssueNames(b: Books, buffer: Buffer)
    requires |b.rows| == 4 && buffer.handle in b.held && b.held[buffer.handle] == buffer
    ensures var r := Next(b, Event.Issue(buffer.handle));
      && r.resident == b.resident[b.nextId := buffer] && r.nextId == b.nextId + 1
      && r.held == b.held - {buffer.handle} && r.recycled == b.recycled
  {
  }

  ghost predicate HeldFrom(held: map<nat, Buffer>, buffers: seq<Buffer>, i: nat)
    requires i <= |buffers|
  {
    forall j :: i <= j < |buffers| ==> buffers[j].handle in held && held[buffers[j].handle] == buffers[j]
  }

  ghost predicate AllDiffer(buffers: seq<Buffer>) {
    forall i, j :: 0 <= i < j < |buffers| ==> buffers[i].handle != buffers[j].handle
  }

  lemma StillHeld(held: map<nat, Buffer>, buffers: seq<Buffer>, i: nat)
    requires i < |buffers| && HeldFrom(held, buffers, i) && AllDiffer(buffers)
    ensures HeldFrom(held - {buffers[i].handle}, buffers, i + 1)
  {
  }

  /** The books once the first `n` buffers are issued. */
  lemma {:induction false} IssuedAllNames(b: Books, ids: seq<nat>, buffers: seq<Buffer>, n: nat)
    requires |b.rows| == 4 && |ids| == |buffers| && (forall i :: 0 <= i < |ids| ==> ids[i] == b.nextId + i)
    requires HeldFrom(b.held, buffers, 0) && AllDiffer(buffers) && n <= |buffers|
    ensures var r := IssuedAll(b, buffers[..n]);
      && NamedBy(b.resident, r.resident, ids[..n], buffers[..n]) && r.recycled == b.recycled
      && r.nextId == b.nextId + n && HeldFrom(r.held, buffers, n)
  {
    if n == 0 {
      assert IssuedAll(b, buffers[..0]) == b;
      assert NamedBy(b.resident, b.resident, ids[..0], buffers[..0]);
    } else {
      IssuedAllNames(b, ids, buffers, n - 1);
      var mid := IssuedAll(b, buffers[..n - 1]);
      IssuedSnoc(b, buffers, n - 1);
      IssueNames(mid, buffers[n - 1]);
      StillHeld(mid.held, buffers, n - 1);
      assert mid.nextId == ids[n - 1];
      NewId(ids, n - 1, b.nextId);
      OneMoreNamed(b.resident, mid.resident, ids[..n - 1], buffers, n - 1, ids[n - 1]);
      PrefixSnoc(ids, n - 1);
      assert IssuedAll(b, buffers[..n]) == Next(mid, Event.Issue(buffers[n - 1].handle));
    }
  }

  lemma PrefixSnoc(ids: seq<nat>, n: nat)
    requires n < |ids|
    ensures ids[..n + 1] == ids[..n] + [ids[n]]
  {
  }

  lemma NewId(ids: seq<nat>, n: nat, first: nat)
    requires n < |ids| && forall i :: 0 <= i < |ids| ==> ids[i] == first + i
    ensures ids[n] !in ids[..n]
  {
  }

  lemma OneMoreNamed(before: map<nat, Buffer>, now: map<nat, Buffer>, ids: seq<nat>, buffers: seq<Buffer>, i: nat,
      id: nat)
    requires i < |buffers| && NamedBy(before, now, ids, buffers[..i]) && id !in ids
    ensures NamedBy(before, now[id := buffers[i]], ids + [id], buffers[..i + 1])
  {
  }

  /** The maps and counters of a context. `books` also says what callers hold and what the driver does. */
  class Context {
    var resident: map<nat, Buffer>
    var recycled: map<Shape, seq<Buffer>>
    var nextId: nat
    var rows: seq<Row>
    var alive: int
    var peak: int
    var nextHandle: nat
    ghost var books: Books

    /** The fields are what `books` says they are. */
    ghost predicate Mirrors()
      reads this
    {
      && |rows| == 4
      && resident == books.resident && recycled == books.recycled && nextId == books.nextId
      && rows == books.rows && alive == books.alive && peak == books.peak && nextHandle == books.nextHandle
    }

    /** Some run of the operations leads to these books, and the fields are theirs. */
    ghost predicate Valid()
      reads this
    {
      Reached(books) && Mirrors()
    }

    ghost predicate Holds(buffer: Buffer)
      reads this
    {
      buffer.handle in books.held && books.held[buffer.handle] == buffer
    }

    constructor ()
      ensures Valid() && Fresh(books)
    {
      resident, recycled, nextId, alive, peak, nextHandle := map[], map[], 0, 0, 0, 0;
      rows := seq(4, _ => Row(0, 0, 0, 0));
      books := Books(map[], map[], map[], 0, seq(4, _ => Row(0, 0, 0, 0)), 0, 0, map[], 0, map[], 0, 0);
      new;
      assert Run(books, []) == books;
    }

    /** The body of `allocate`. */
    method TakeOrMake(padded: nat, kind: Class, tag: Tag, ok: bool) returns (r: Option<Buffer>)
      requires Mirrors()
      modifies this
      ensures Mirrors() && books == Allocated(old(books), padded, kind, tag, ok)
      ensures var pool := Pool(old(recycled), (padded, kind));
        r ==
          if pool != [] then Some(pool[|pool| - 1].(tag := tag))
          else if ok then Some(Buffer(old(nextHandle), padded, kind, tag)) else None
      ensures resident == old(resident) && nextId == old(nextId) && (r.None? ==> books.held == old(books).held)
    {
      ghost var after := Allocated(books, padded, kind, tag, ok);
      books := after;
      var pool := Pool(recycled, (padded, kind));
      if pool != [] {
        var buffer := pool[|pool| - 1];
        recycled := recycled[(padded, kind) := pool[..|pool| - 1]];
        rows := Bump(rows, buffer.tag, 0, 0 - Bytes(padded, kind), 0, 0);
        return Some(buffer.(tag := tag));
      }
      var bytes := Bytes(padded, kind);
      rows := Bump(rows, tag, 0, 0, bytes, 0);
      alive := alive + bytes;
      peak := Max(peak, alive);
      if !ok { return None; }
      nextHandle := nextHandle + 1;
      return Some(Buffer(nextHandle - 1, padded, kind, tag));
    }

    /** `allocate`: a pooled buffer of the shape, or a new one; `ok` is whether the driver makes one when asked. */
    method Allocate(padded: nat, kind: Class, tag: Tag, ok: bool) returns (r: Option<Buffer>)
      requires Valid()
      modifies this
      ensures Valid() && books == Allocated(old(books), padded, kind, tag, ok)
      ensures r.None? <==> !ok && Pool(old(recycled), (padded, kind)) == []
      ensures r.Some? ==> Holds(r.value) && r.value == Buffer(HandleFor(old(books), (padded, kind)), padded, kind, tag)
      ensures r.Some? ==> r.value.handle !in old(books).held && books.held == old(books).held[r.value.handle := r.value]
      ensures resident == old(resident) && nextId == old(nextId) && (r.None? ==> books.held == old(books).held)
    {
      ghost var was := books;
      r := TakeOrMake(padded, kind, tag, ok);
      ReachedNext(was, Event.Allocate(padded, kind, tag, ok));
      AllocatedIsNew(was, (padded, kind));
    }

    /** A failed call drops a buffer it held. */
    ghost method Forget(buffer: Buffer)
      requires Valid() && Holds(buffer)
      modifies this`books
      ensures Valid() && books == Forgotten(old(books), buffer.handle) &&
        books.held == old(books).held - {buffer.handle}
    {
      ReachedNext(books, Event.Forget(buffer.handle));
      books := Forgotten(books, buffer.handle);
    }

    /** A buffer is the last of its shape's pool, unless four are there already; no other shape's pool changes. */
    ghost predicate TakenIn(before: map<Shape, seq<Buffer>>, after: map<Shape, seq<Buffer>>, buffer: Buffer) {
      var shape := (buffer.padded, buffer.kind);
      && Pool(after, shape) ==
           (if |Pool(before, shape)| < 4 then Pool(before, shape) + [buffer] else Pool(before, shape))
      && forall other: Shape :: other != shape ==> Pool(after, other) == Pool(before, other)
    }

    /** The end of `recycle`, for a buffer already out of every map; `out` are the books without it. */
    method GiveBack(buffer: Buffer, ghost out: Books)
      requires |rows| == 4 && recycled == out.recycled && rows == out.rows && alive == out.alive
      modifies this`recycled, this`rows, this`alive
      ensures recycled == Pooled(out, buffer).recycled && rows == Pooled(out, buffer).rows &&
        alive == Pooled(out, buffer).alive && |rows| == 4
      ensures TakenIn(old(recycled), recycled, buffer)
    {
      var bytes := BytesOf(buffer);
      var shape := (buffer.padded, buffer.kind);
      var pool := Pool(recycled, shape);
      if |pool| < RECYCLED_PER_SIZE {
        recycled := recycled[shape := pool + [buffer]];
        rows := Bump(rows, buffer.tag, 0, bytes, 0, 0);
      } else {
        recycled := recycled[shape := pool];
        rows := Bump(rows, buffer.tag, 0, 0, 0, bytes);
        alive := alive - bytes;
      }
    }

    /** `recycle`: the caller's buffer goes to the pool of its shape, or past the cap to the driver. */
    method Recycle(buffer: Buffer)
      requires Valid() && Holds(buffer)
      modifies this
      ensures Valid() && books == Recycled(old(books), buffer.handle)
      ensures books.held == old(books).held - {buffer.handle} && nextId == old(nextId) && resident == old(resident)
      ensures TakenIn(old(recycled), recycled, buffer)
    {
      ReachedNext(books, Event.Recycle(buffer.handle));
      PutBack(buffer);
    }

    method PutBack(buffer: Buffer)
      requires Mirrors() && Holds(buffer)
      modifies this
      ensures Mirrors() && books == Recycled(old(books), buffer.handle)
      ensures books.held == old(books).held - {buffer.handle} && nextId == old(nextId) && resident == old(resident)
      ensures TakenIn(old(recycled), recycled, buffer)
    {
      ghost var out := books.(held := books.held - {buffer.handle});
      GiveBack(buffer, out);
      books := Pooled(out, buffer);
    }

    /** `issue`: one new id per buffer, in order. */
    method Issue(buffers: seq<Buffer>) returns (ids: seq<nat>)
      requires Valid() && (forall i :: 0 <= i < |buffers| ==> Holds(buffers[i]))
      requires forall i, j :: 0 <= i < j < |buffers| ==> buffers[i].handle != buffers[j].handle
      modifies this
      ensures Valid() && |ids| == |buffers| && forall i :: 0 <= i < |ids| ==> ids[i] == old(nextId) + i
      ensures books == IssuedAll(old(books), buffers) && recycled == old(recycled)
      ensures NamedBy(old(resident), resident, ids, buffers)
    {
      IssuedAllReached(books, buffers);
      ids := IssueEach(buffers);
    }

    method IssueEach(buffers: seq<Buffer>) returns (ids: seq<nat>)
      requires Mirrors() && (forall i :: 0 <= i < |buffers| ==> Holds(buffers[i]))
      requires forall i, j :: 0 <= i < j < |buffers| ==> buffers[i].handle != buffers[j].handle
      modifies this
      ensures Mirrors() && |ids| == |buffers| && forall i :: 0 <= i < |ids| ==> ids[i] == old(nextId) + i
      ensures books == IssuedAll(old(books), buffers) && recycled == old(recycled)
      ensures NamedBy(old(resident), resident, ids, buffers)
    {
      ids := [];
      ghost var start := books;
      var i := 0;
      while i < |buffers|
        invariant 0 <= i == |ids| <= |buffers| && Mirrors() && nextId == old(nextId) + i
        invariant forall j :: 0 <= j < i ==> ids[j] == old(nextId) + j
        invariant forall j :: i <= j < |buffers| ==> Holds(buffers[j])
        invariant books == IssuedAll(start, buffers[..i])
      {
        IssuedSnoc(start, buffers, i);
        IssueOne(buffers[i]);
        ids := ids + [nextId - 1];
        i := i + 1;
      }
      assert buffers[..i] == buffers;
      IssuedAllNames(start, ids, buffers, |buffers|);
      assert ids[..|buffers|] == ids;
    }

    method IssueOne(buffer: Buffer)
      requires Mirrors() && Holds(buffer)
      modifies this
      ensures Mirrors() && books == Issued(old(books), buffer.handle)
      ensures nextId == old(nextId) + 1 && books.held == old(books).held - {buffer.handle}
      ensures resident == old(resident)[old(nextId) := buffer] && recycled == old(recycled)
    {
      ghost var after := Issued(books, buffer.handle);
      rows := Bump(rows, buffer.tag, BytesOf(buffer), 0, 0, 0);
      resident := resident[nextId := buffer];
      nextId := nextId + 1;
      books := after;
    }

    /** `release`: idempotent, and the buffer is recycled. */
    method Release(id: nat)
      requires Valid()
      modifies this
      ensures Valid() && books == Released(old(books), id) && resident == old(resident) - {id}
      ensures if id in old(resident) then TakenIn(old(recycled), recycled, old(resident)[id])
        else recycled == old(recycled)
    {
      ReachedNext(books, Event.Release(id));
      ReleaseIsIdempotent(books, id);
      if id !in resident { return; }
      TakeBack(id);
    }

    method TakeBack(id: nat)
      requires Mirrors() && id in resident
      modifies this
      ensures Mirrors() && books == Released(old(books), id) && resident == old(resident) - {id}
      ensures TakenIn(old(recycled), recycled, old(resident)[id])
    {
      var buffer := resident[id];
      ghost var out := WithoutId(books, id);
      resident := resident - {id};
      rows := Bump(rows, buffer.tag, 0 - BytesOf(buffer), 0, 0, 0);
      GiveBack(buffer, out);
      books := Pooled(out, buffer);
    }

    /** `relabel`: refused when the new record would claim more bytes. */
    method Relabel(id: nat, count: nat, kind: Class) returns (ok: bool)
      requires Valid()
      modifies this
      ensures Valid() && books == Relabelled(old(books), id, count, kind)
      ensures ok <==> id in old(resident) && count * Width(kind) <= BytesOf(old(resident)[id])
      ensures resident ==
        if ok then old(resident)[id := old(resident)[id].(padded := count, kind := kind)] else old(resident)
    {
      ReachedNext(books, Event.Relabel(id, count, kind));
      if id !in resident { return false; }
      if Bytes(count, kind) > BytesOf(resident[id]) { return false; }
      Restate(id, count, kind);
      return true;
    }

    method Restate(id: nat, count: nat, kind: Class)
      requires Mirrors() && id in resident && Bytes(count, kind) <= BytesOf(resident[id])
      modifies this
      ensures Mirrors() && books == Relabelled(old(books), id, count, kind)
      ensures resident == old(resident)[id := old(resident)[id].(padded := count, kind := kind)]
    {
      ghost var after := Relabelled(books, id, count, kind);
      var buffer := resident[id];
      resident := resident[id := buffer.(padded := count, kind := kind)];
      rows := Bump(rows, buffer.tag, Bytes(count, kind) - BytesOf(buffer), 0, 0, 0);
      books := after;
    }

    /** The size of the copy a `fetch` records, inside the allocation it copies from. */
    method FetchSize(id: nat, count: nat) returns (r: Option<nat>)
      requires Valid()
      ensures r == FetchBytes(books, id, count)
      ensures r ==
        if id in resident && count <= resident[id].padded then Some(count * Width(resident[id].kind)) else None
      ensures r.Some? ==> resident[id].handle in books.physical && r.value <= books.physical[resident[id].handle]
    {
      if id !in resident || count > resident[id].padded { return None; }
      FetchStaysInside(books, id, count);
      return Some(Bytes(count, resident[id].kind));
    }
  }
}
