/** What the byte counters say, over whole runs of the ledger. */
module Counters {
  import opened Options
  import opened Scalars
  import opened Sums
  import opened Ledger

  // ---- the peak ----

  ghost function AliveAt(b: Books, events: seq<Event>, n: nat): int
    requires |b.rows| == 4 && n <= |events|
  {
    Run(b, events[..n]).alive
  }

  lemma PeakMoves(b: Books, e: Event)
    requires |b.rows| == 4 && b.alive <= b.peak
    ensures Next(b, e).peak == if Next(b, e).alive > b.peak then Next(b, e).alive else b.peak
  {
  }

  /** The peak is the most `alive` ever was: never less, and it was that. */
  ghost predicate IsTheMost(b: Books, events: seq<Event>, peak: int)
    requires |b.rows| == 4
  {
    && (forall n: nat :: n <= |events| ==> AliveAt(b, events, n) <= peak)
    && exists n: nat :: n <= |events| && AliveAt(b, events, n) == peak
  }

  lemma MostMoves(b: Books, events: seq<Event>, e: Event, peak: int)
    requires |b.rows| == 4 && IsTheMost(b, events, peak)
    ensures var now := Run(b, events + [e]).alive; IsTheMost(b, events + [e], if now > peak then now else peak)
  {
    var longer, now := events + [e], Run(b, events + [e]).alive;
    assert longer[..|longer|] == longer;
    forall n: nat | n <= |events| ensures AliveAt(b, longer, n) == AliveAt(b, events, n) {
      assert longer[..n] == events[..n];
    }
    if now > peak {
      assert AliveAt(b, longer, |longer|) == now;
    } else {
      var n: nat :| n <= |events| && AliveAt(b, events, n) == peak;
      assert AliveAt(b, longer, n) == peak;
    }
  }

  lemma PeakStep(b: Books, before: seq<Event>, e: Event)
    requires |b.rows| == 4 && Inv(Run(b, before)) && IsTheMost(b, before, Run(b, before).peak)
    ensures IsTheMost(b, before + [e], Run(b, before + [e]).peak)
  {
    assert (before + [e])[..|before|] == before;
    PeakMoves(Run(b, before), e);
    MostMoves(b, before, e, Run(b, before).peak);
  }

  lemma {:induction false} PeakIsTheMost(b: Books, events: seq<Event>)
    requires Fresh(b)
    ensures IsTheMost(b, events, Run(b, events).peak)
  {
    if events == [] {
      assert AliveAt(b, events, 0) == b.peak;
    } else {
      var before := events[..|events| - 1];
      PeakIsTheMost(b, before);
      RunHolds(b, before);
      PeakStep(b, before, events[|events| - 1]);
      assert before + [events[|events| - 1]] == events;
    }
  }

  lemma RunHolds(b: Books, events: seq<Event>)
    requires Fresh(b)
    ensures |b.rows| == 4 && Inv(Run(b, events))
  {
    EmptyHolds(b);
    RunKeeps(b, events);
  }

  // ---- taken and freed, by what a buffer is for ----

  /** The buffer an event hands back to the context. */
  function HandedBack(b: Books, e: Event): Option<Buffer> {
    match e
    case Recycle(handle) => if handle in b.held then Some(b.held[handle]) else None
    case Release(id) => if id in b.resident then Some(b.resident[id]) else None
    case _ => None
  }

  /** The buffer comes back to a pool that holds four of its shape already. */
  predicate IsSurplus(b: Books, buffer: Buffer) {
    |Pool(b.recycled, (buffer.padded, buffer.kind))| >= 4
  }

  /** The bytes an event asks the driver for, for buffers of a use. */
  function Asked(b: Books, e: Event, t: Tag): nat {
    if e.Allocate? && e.tag == t && Pool(b.recycled, (e.padded, e.kind)) == [] then e.padded * Width(e.kind) else 0
  }

  /** The bytes an event gives the driver back. */
  function GivenUp(b: Books, e: Event, t: Tag): nat {
    match HandedBack(b, e)
    case Some(buffer) => if IsSurplus(b, buffer) && buffer.tag == t then buffer.padded * Width(buffer.kind) else 0
    case None => 0
  }

  ghost function AskedInAll(b: Books, events: seq<Event>, t: Tag): nat
    requires |b.rows| == 4
  {
    if events == [] then 0
    else
      var before := events[..|events| - 1];
      AskedInAll(b, before, t) + Asked(Run(b, before), events[|events| - 1], t)
  }

  ghost function GivenUpInAll(b: Books, events: seq<Event>, t: Tag): nat
    requires |b.rows| == 4
  {
    if events == [] then 0
    else
      var before := events[..|events| - 1];
      GivenUpInAll(b, before, t) + GivenUp(Run(b, before), events[|events| - 1], t)
  }

  lemma BumpMovesOne(rows: seq<Row>, u: Tag, resident: int, pooled: int, taken: int, freed: int, t: Tag)
    requires |rows| == 4
    ensures var r := Bump(rows, u, resident, pooled, taken, freed)[Index(t)];
      r.taken == rows[Index(t)].taken + (if t == u then taken else 0) &&
      r.freed == rows[Index(t)].freed + (if t == u then freed else 0)
  {
  }

  /** What a buffer handed back does to its use's row: nothing, or its bytes are freed. */
  lemma PooledRow(b: Books, buffer: Buffer, t: Tag)
    requires |b.rows| == 4
    ensures var r := Pooled(b, buffer).rows[Index(t)];
      r.taken == b.rows[Index(t)].taken && r.freed == b.rows[Index(t)].freed +
        if IsSurplus(b, buffer) && buffer.tag == t then buffer.padded * Width(buffer.kind) else 0
  {
    if IsSurplus(b, buffer) {
      BumpMovesOne(b.rows, buffer.tag, 0, 0, 0, BytesOf(buffer), t);
    } else {
      BumpMovesOne(b.rows, buffer.tag, 0, BytesOf(buffer), 0, 0, t);
    }
  }

  lemma AllocatedRow(b: Books, padded: nat, kind: Class, tag: Tag, ok: bool, t: Tag)
    requires |b.rows| == 4
    ensures var r := Allocated(b, padded, kind, tag, ok).rows[Index(t)];
      r.freed == b.rows[Index(t)].freed && r.taken == b.rows[Index(t)].taken +
        if tag == t && Pool(b.recycled, (padded, kind)) == [] then padded * Width(kind) else 0
  {
    var pool := Pool(b.recycled, (padded, kind));
    if pool != [] {
      BumpMovesOne(b.rows, pool[|pool| - 1].tag, 0, 0 - Bytes(padded, kind), 0, 0, t);
    } else {
      BumpMovesOne(b.rows, tag, 0, 0, Bytes(padded, kind), 0, t);
    }
  }

  lemma RowMoves(b: Books, e: Event, t: Tag)
    requires |b.rows| == 4
    ensures var r := Next(b, e);
      r.rows[Index(t)].taken == b.rows[Index(t)].taken + Asked(b, e, t) &&
      r.rows[Index(t)].freed == b.rows[Index(t)].freed + GivenUp(b, e, t)
  {
    match e {
      case Allocate(padded, kind, tag, ok) => AllocatedRow(b, padded, kind, tag, ok, t);
      case Recycle(handle) =>
        if handle in b.held { PooledRow(b.(held := b.held - {handle}), b.held[handle], t); }
      case Issue(handle) =>
        if handle in b.held { BumpMovesOne(b.rows, b.held[handle].tag, BytesOf(b.held[handle]), 0, 0, 0, t); }
      case Release(id) =>
        if id in b.resident {
          BumpMovesOne(b.rows, b.resident[id].tag, 0 - BytesOf(b.resident[id]), 0, 0, 0, t);
          PooledRow(WithoutId(b, id), b.resident[id], t);
        }
      case Relabel(id, count, kind) =>
        if RelabelFits(b, id, count, kind) {
          var buffer := b.resident[id];
          BumpMovesOne(b.rows, buffer.tag, Bytes(count, kind) - BytesOf(buffer), 0, 0, 0, t);
        }
      case Forget(handle) =>
    }
  }

  /** Each row counts, for its use alone, what was asked of the driver and what of it the driver got back. */
  lemma {:induction false} RowsCountTheirUse(b: Books, events: seq<Event>, t: Tag)
    requires Fresh(b)
    ensures Run(b, events).rows[Index(t)].taken == AskedInAll(b, events, t)
    ensures Run(b, events).rows[Index(t)].freed == GivenUpInAll(b, events, t)
  {
    if events != [] {
      var before := events[..|events| - 1];
      RowsCountTheirUse(b, before, t);
      RowMoves(Run(b, before), events[|events| - 1], t);
    }
  }

  /** The driver gets an allocation back exactly when its buffer comes back to a full pool. */
  lemma FreedExactlyWhenSurplus(b: Books, e: Event, h: nat)
    requires Inv(b) && h in b.physical
    ensures h !in Next(b, e).physical <==>
      HandedBack(b, e).Some? && HandedBack(b, e).value.handle == h && IsSurplus(b, HandedBack(b, e).value)
  {
  }

  /**
  The driver is asked for an allocation exactly when the pool of the shape is empty, and that makes one if it answers.
   */
  lemma MadeExactlyWhenAsked(b: Books, e: Event)
    requires Inv(b)
    ensures Next(b, e).nextHandle ==
      if e.Allocate? && e.ok && Pool(b.recycled, (e.padded, e.kind)) == [] then b.nextHandle + 1 else b.nextHandle
  {
  }
}
