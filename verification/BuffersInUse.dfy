/**
The slots and the ledger run together: whether a buffer that a submission still uses is ever given back to the pool.
 */
module BuffersInUse {
  import opened Options
  import opened Scalars
  import Sums
  import Ledger
  import SlotPool

  /** Both state machines, and the buffers each submission ever made reads or writes. */
  datatype Joint = Joint(world: SlotPool.World, books: Ledger.Books, uses: seq<set<nat>>)

  /** An event of the slots, with the buffers its submission uses if it makes one; or one of the ledger. */
  datatype Event = OfSlots(e: SlotPool.Event, used: set<nat>) | OfBooks(b: Ledger.Event)

  ghost predicate Inv(j: Joint) {
    SlotPool.Inv(j.world) && Ledger.Inv(j.books) && |j.uses| == |j.world.device.slotOf|
  }

  /**
  The host holds the buffer, or an id names it, or a failed call dropped it: it is neither in the pool nor the
  driver's again.
   */
  predicate Kept(b: Ledger.Books, h: nat) {
    h in b.place && !b.place[h].InPool?
  }

  /** A submission is made over buffers that are held or resident. */
  predicate Usable(b: Ledger.Books, used: set<nat>) {
    forall h :: h in used ==> h in b.place && (b.place[h].WithHost? || b.place[h].AtId?)
  }

  ghost function Next(j: Joint, e: Event): (r: Joint)
    requires Inv(j)
    ensures Inv(r)
  {
    match e
    case OfSlots(s, used) =>
      SlotPool.NextKeeps(j.world, s);
      SlotsMove(j.world, s);
      if !Usable(j.books, used) then j
      else
        var w := SlotPool.Next(j.world, s);
        j.(world := w, uses := if |w.device.slotOf| > |j.uses| then j.uses + [used] else j.uses)
    case OfBooks(b) =>
      Ledger.NextKeeps(j.books, b);
      j.(books := Ledger.Next(j.books, b))
  }

  /** An event makes one submission or none, and no submission is unfinished again. */
  lemma SlotsMove(w: SlotPool.World, e: SlotPool.Event)
    requires SlotPool.Fits(w)
    ensures |w.device.slotOf| <= |SlotPool.Next(w, e).device.slotOf| <= |w.device.slotOf| + 1
    ensures w.device.finished <= SlotPool.Next(w, e).device.finished
  {
  }

  ghost predicate InUse(j: Joint, h: nat) {
    exists s: nat :: UsedBy(j, s, h)
  }

  ghost predicate UsedBy(j: Joint, s: nat, h: nat) {
    s < |j.uses| && s !in j.world.device.finished && h in j.uses[s]
  }

  /** No buffer an unfinished submission uses is in the pool, or back with the driver. */
  ghost predicate Safe(j: Joint) {
    forall h: nat :: InUse(j, h) ==> Kept(j.books, h)
  }

  /** The event hands buffer `h` to the pool or the driver. */
  ghost predicate GivesBack(b: Ledger.Books, e: Ledger.Event, h: nat) {
    match e
    case Recycle(handle) => handle == h && h in b.held
    case Release(id) => id in b.resident && b.resident[id].handle == h
    case _ => false
  }

  /** What the caller could check first: the buffer it gives back is one an unfinished submission uses. */
  ghost predicate GivesBackInUse(j: Joint, e: Event) {
    e.OfBooks? && exists h: nat :: GivesBack(j.books, e.b, h) && InUse(j, h)
  }

  lemma PooledIsNotKept(b: Ledger.Books, buffer: Sums.Buffer, h: nat)
    requires |b.rows| == 4
    ensures Kept(Ledger.Pooled(b, buffer), h) <==> Kept(b, h) && h != buffer.handle
  {
  }

  /** A kept buffer stays kept by every event but one that gives it back. */
  lemma KeptExactly(b: Ledger.Books, e: Ledger.Event, h: nat)
    requires Ledger.Inv(b) && Kept(b, h)
    ensures Kept(Ledger.Next(b, e), h) <==> !GivesBack(b, e, h)
  {
    match e {
      case Recycle(handle) =>
        if handle in b.held {
          assert Ledger.RecordFits(b, b.held[handle], Ledger.WithHost);
          PooledIsNotKept(b.(held := b.held - {handle}), b.held[handle], h);
        }
      case Release(id) =>
        if id in b.resident { PooledIsNotKept(Ledger.WithoutId(b, id), b.resident[id], h); }
      case _ =>
    }
  }

  /** One event of a safe state leaves it safe exactly when it gives back nothing in use. */
  lemma SafeExactly(j: Joint, e: Event)
    requires Inv(j) && Safe(j)
    ensures Safe(Next(j, e)) <==> !GivesBackInUse(j, e)
  {
    var r := Next(j, e);
    if e.OfSlots? {
      SlotsMove(j.world, e.e);
      forall h: nat | InUse(r, h) ensures Kept(r.books, h) {
        var s: nat :| UsedBy(r, s, h);
        if s < |j.uses| { assert UsedBy(j, s, h); }
      }
    } else {
      assert forall h: nat, s: nat :: UsedBy(r, s, h) <==> UsedBy(j, s, h);
      forall h: nat | InUse(j, h)
        ensures Kept(r.books, h) <==> !GivesBack(j.books, e.b, h)
      {
        KeptExactly(j.books, e.b, h);
      }
      assert forall h: nat :: InUse(r, h) <==> InUse(j, h);
    }
  }

  // ---- whole runs ----

  ghost function Run(j: Joint, events: seq<Event>): (r: Joint)
    requires Inv(j)
    ensures Inv(r)
  {
    if events == [] then j else Next(Run(j, events[..|events| - 1]), events[|events| - 1])
  }

  ghost predicate SafeThroughout(j: Joint, events: seq<Event>)
    requires Inv(j)
  {
    Safe(Run(j, events)) && (events == [] || SafeThroughout(j, events[..|events| - 1]))
  }

  ghost predicate NoneGivenBackInUse(j: Joint, events: seq<Event>)
    requires Inv(j)
  {
    events == [] ||
    (!GivesBackInUse(Run(j, events[..|events| - 1]), events[|events| - 1]) &&
      NoneGivenBackInUse(j, events[..|events| - 1]))
  }

  /**
  Over joint runs, in any order and with any answers: all through a run no buffer an unfinished submission
  uses is in the pool or with the driver, exactly when no event of the run gives back one that is in use.
   */
  lemma {:induction false} SafeThroughoutExactly(j: Joint, events: seq<Event>)
    requires Inv(j) && Safe(j)
    ensures SafeThroughout(j, events) <==> NoneGivenBackInUse(j, events)
  {
    if events != [] {
      var before := events[..|events| - 1];
      SafeThroughoutExactly(j, before);
      if SafeThroughout(j, before) {
        SafeNow(j, before);
        SafeExactly(Run(j, before), events[|events| - 1]);
      }
    }
  }

  lemma SafeNow(j: Joint, events: seq<Event>)
    requires Inv(j) && SafeThroughout(j, events)
    ensures Safe(Run(j, events))
  {
  }

  /** After a wait that succeeded, giving back a buffer its submission alone used is safe. */
  lemma AfterTheWait(j: Joint, s: nat, inTime: bool, h: nat)
    requires Inv(j) && s < |j.uses| && SlotPool.Synced(j.world, j.world.device.slotOf[s], inTime)
    requires forall t: nat :: t < |j.uses| && h in j.uses[t] ==> t == s
    ensures var waited := Next(j, OfSlots(SlotPool.Sync(j.world.device.slotOf[s], inTime), {}));
      !GivesBackInUse(waited, OfBooks(Ledger.Recycle(h)))
  {
    var e := SlotPool.Sync(j.world.device.slotOf[s], inTime);
    SlotPool.SyncFinishes(j.world, s, inTime);
    var waited := Next(j, OfSlots(e, {}));
    SyncSubmitsNothing(j.world, j.world.device.slotOf[s], inTime);
    forall t: nat ensures !UsedBy(waited, t, h) {}
  }

  lemma SyncSubmitsNothing(w: SlotPool.World, slot: nat, inTime: bool)
    requires SlotPool.Fits(w)
    ensures SlotPool.Next(w, SlotPool.Sync(slot, inTime)).device.slotOf == w.device.slotOf
  {
  }

  /** A context that has done nothing. */
  ghost predicate Begins(j: Joint, depth: nat) {
    depth > 0 && j.world == SlotPool.Start(depth) && Ledger.Fresh(j.books) && j.books.nextHandle == 0 && j.uses == []
  }

  lemma BeginsSafely(j: Joint, depth: nat)
    requires Begins(j, depth)
    ensures Inv(j) && Safe(j)
  {
    SlotPool.StartHolds(depth);
    Ledger.EmptyHolds(j.books);
  }

  /** A run to its wait: a slot claimed, an upload's buffer taken, both handed over, and the wait bounded out. */
  ghost function Taken(j: Joint): Joint
    requires Inv(j)
  {
    Next(Next(j, OfSlots(SlotPool.Acquire(true, true), {})), OfBooks(Ledger.Allocate(64, IntClass, Sums.Upload, true)))
  }

  ghost function TimedOut(j: Joint): Joint
    requires Inv(j)
  {
    Next(Next(j, OfSlots(SlotPool.Submit(SlotPool.Driver(true, true, true)), {0})),
      OfSlots(SlotPool.Sync(0, false), {}))
  }

  lemma ItIsTaken(j: Joint)
    requires Begins(j, 1) && Inv(j) && Safe(j)
    ensures Inv(Taken(j)) && Safe(Taken(j)) && 0 in Taken(j).books.held && 0 in Taken(j).books.place &&
      Taken(j).books.place[0] == Ledger.WithHost
    ensures Taken(j).world == SlotPool.Next(SlotPool.Start(1), SlotPool.Acquire(true, true)) && Taken(j).uses == []
  {
    var acquire, allocate :=
      OfSlots(SlotPool.Acquire(true, true), {}), OfBooks(Ledger.Allocate(64, IntClass, Sums.Upload, true));
    SafeExactly(j, acquire);
    SafeExactly(Next(j, acquire), allocate);
    FirstBuffer(j.books);
  }

  lemma FirstBuffer(b: Ledger.Books)
    requires Ledger.Fresh(b) && b.nextHandle == 0
    ensures var r := Ledger.Next(b, Ledger.Allocate(64, IntClass, Sums.Upload, true));
      0 in r.held && 0 in r.place && r.place[0] == Ledger.WithHost
  {
  }

  lemma ItTimesOut(j: Joint)
    requires Inv(j) && Safe(j) && 0 in j.books.held && 0 in j.books.place && j.books.place[0] == Ledger.WithHost
    requires j.world == SlotPool.Next(SlotPool.Start(1), SlotPool.Acquire(true, true)) && j.uses == []
    ensures Inv(TimedOut(j)) && Safe(TimedOut(j)) && 0 in TimedOut(j).books.held && UsedBy(TimedOut(j), 0, 0)
  {
    var submit, sync :=
      OfSlots(SlotPool.Submit(SlotPool.Driver(true, true, true)), {0}), OfSlots(SlotPool.Sync(0, false), {});
    SafeExactly(j, submit);
    SafeExactly(Next(j, submit), sync);
  }

  /** After one that did not, it is not: a run whose wait times out gives its upload back all the same. */
  lemma TimedOutIsUnsafe(j: Joint)
    requires Begins(j, 1)
    ensures Inv(j) && Safe(TimedOut(Taken(j))) && !Safe(Next(TimedOut(Taken(j)), OfBooks(Ledger.Recycle(0))))
  {
    BeginsSafely(j, 1);
    ItIsTaken(j);
    ItTimesOut(Taken(j));
    GivingItBack(TimedOut(Taken(j)), 0, 0);
  }

  lemma GivingItBack(j: Joint, s: nat, h: nat)
    requires Inv(j) && Safe(j) && h in j.books.held && UsedBy(j, s, h)
    ensures !Safe(Next(j, OfBooks(Ledger.Recycle(h))))
  {
    assert GivesBack(j.books, Ledger.Recycle(h), h) && InUse(j, h);
    SafeExactly(j, OfBooks(Ledger.Recycle(h)));
  }
}
