/** Whose turn it is: which slot an acquisition takes, how long it stays taken, and when it has to be waited for. */
module SlotTurns {
  import opened Options
  import opened SlotPool
  import opened Words

  // ---- turns ----

  /** An acquisition the pool's lock lets in, whether or not it comes back with a slot. */
  ghost predicate IsTurn(w: World, e: Event) {
    e.Acquire? && w.segment.None?
  }

  /** The pool once the first `h` events have happened. */
  ghost function At(depth: nat, events: seq<Event>, h: nat): (w: World)
    requires 0 < depth && h <= |events|
    ensures Fits(w) && |w.claimed| == depth
  {
    Run(Start(depth), events[..h])
  }

  lemma OneOn(depth: nat, events: seq<Event>, h: nat)
    requires 0 < depth && h < |events|
    ensures At(depth, events, h + 1) == Next(At(depth, events, h), events[h]) && Inv(At(depth, events, h))
  {
    assert events[..h + 1][..h] == events[..h];
    StartHolds(depth);
    RunKeeps(Start(depth), events[..h]);
  }

  /** How many of the first `h` events are acquisitions. */
  ghost function Turns(depth: nat, events: seq<Event>, h: nat): nat
    requires 0 < depth && h <= |events|
  {
    if h == 0 then 0
    else Turns(depth, events, h - 1) + if IsTurn(At(depth, events, h - 1), events[h - 1]) then 1 else 0
  }

  /** Event `h` acquires slot `i`. */
  ghost predicate Takes(depth: nat, events: seq<Event>, h: nat, i: nat)
    requires 0 < depth
  {
    && h < |events| && IsTurn(At(depth, events, h), events[h])
    && At(depth, events, h + 1).segment == Some(Segment(i, false))
  }

  lemma TurnIsTaken(w: World, e: Event)
    requires Fits(w)
    ensures Next(w, e).cursor == if IsTurn(w, e) then (w.cursor + 1) % |w.claimed| else w.cursor
    ensures IsTurn(w, e) && Next(w, e).segment.Some? ==> Next(w, e).segment == Some(Segment(w.cursor, false))
  {
  }

  lemma OneMore(n: nat, depth: nat)
    requires depth > 0
    ensures (n % depth + 1) % depth == (n + 1) % depth
  {
    if n % depth + 1 < depth {
      Remainder(n + 1, depth, n / depth, n % depth + 1);
    } else {
      Remainder(n + 1, depth, n / depth + 1, 0);
    }
  }

  lemma NearTurnsDiffer(m: nat, n: nat, depth: nat)
    requires m < n < m + depth
    ensures m % depth != n % depth
  {
    if m % depth == n % depth {
      assert depth * (n / depth - m / depth) == n - m;
      SmallMultipleIsZero(depth, n / depth - m / depth);
    }
  }

  /** The cursor is the number of acquisitions so far, taken round the pool, however each of them ended. */
  lemma {:induction false} CursorCountsTurns(depth: nat, events: seq<Event>, h: nat)
    requires 0 < depth && h <= |events|
    ensures At(depth, events, h).cursor == Turns(depth, events, h) % depth
  {
    if h > 0 {
      CursorCountsTurns(depth, events, h - 1);
      CursorMoves(depth, events, h - 1);
      if IsTurn(At(depth, events, h - 1), events[h - 1]) { OneMore(Turns(depth, events, h - 1), depth); }
    }
  }

  lemma CursorMoves(depth: nat, events: seq<Event>, h: nat)
    requires 0 < depth && h < |events|
    ensures At(depth, events, h + 1).cursor ==
      if IsTurn(At(depth, events, h), events[h]) then (At(depth, events, h).cursor + 1) % depth
      else At(depth, events, h).cursor
  {
    OneOn(depth, events, h);
    TurnIsTaken(At(depth, events, h), events[h]);
  }

  /** Slots are handed out round-robin: an acquisition gets the slot its number names. */
  lemma TakesItsTurn(depth: nat, events: seq<Event>, h: nat, i: nat)
    requires 0 < depth && Takes(depth, events, h, i)
    ensures i == Turns(depth, events, h) % depth
  {
    CursorCountsTurns(depth, events, h);
    OneOn(depth, events, h);
    TurnIsTaken(At(depth, events, h), events[h]);
  }

  lemma {:induction false} TurnsGrow(depth: nat, events: seq<Event>, g: nat, h: nat)
    requires 0 < depth && g <= h <= |events|
    ensures Turns(depth, events, g) <= Turns(depth, events, h)
  {
    if g < h { TurnsGrow(depth, events, g, h - 1); }
  }

  lemma TurnIsCounted(depth: nat, events: seq<Event>, g: nat)
    requires 0 < depth && g < |events| && IsTurn(At(depth, events, g), events[g])
    ensures Turns(depth, events, g + 1) == Turns(depth, events, g) + 1
  {
  }

  /** Of any `depth` acquisitions in a row no two get one slot. */
  lemma TurnsInARowDiffer(depth: nat, events: seq<Event>, g: nat, h: nat, i: nat, j: nat)
    requires 0 < depth && g < h && Takes(depth, events, g, i) && Takes(depth, events, h, j)
    requires Turns(depth, events, h) < Turns(depth, events, g) + depth
    ensures i != j
  {
    TakesItsTurn(depth, events, g, i);
    TakesItsTurn(depth, events, h, j);
    TurnsGrow(depth, events, g + 1, h);
    TurnIsCounted(depth, events, g);
    NearTurnsDiffer(Turns(depth, events, g), Turns(depth, events, h), depth);
  }

  // ---- how long a slot stays taken ----

  ghost predicate Holds(w: World, i: nat) {
    w.segment.Some? && w.segment.value.index == i
  }

  /** Slot `i` is given back: dropped unsent, read back in time, or waited for and found finished. */
  ghost predicate GivesBack(w: World, e: Event, i: nat)
    requires Fits(w)
  {
    match e
    case Abandon => Holds(w, i)
    case Submit(driver) => Holds(w, i) && !HandsOver(driver)
    case SubmitAndReadBack(driver, inTime) => Holds(w, i) && !(HandsOver(driver) && !inTime)
    case Sync(slot, inTime) => slot == i && Synced(w, slot, inTime)
    case _ => false
  }

  ghost predicate GivenBack(depth: nat, events: seq<Event>, k: nat, i: nat)
    requires 0 < depth
  {
    k < |events| && GivesBack(At(depth, events, k), events[k], i)
  }

  /** Event `h` acquired the slot, and nothing up to event `n` gave it back. */
  ghost predicate TakenSince(depth: nat, events: seq<Event>, n: nat, h: nat, i: nat)
    requires 0 < depth
  {
    h < n <= |events| && Takes(depth, events, h, i) && forall k: nat :: h < k < n ==> !GivenBack(depth, events, k, i)
  }

  ghost predicate StillTaken(depth: nat, events: seq<Event>, n: nat, i: nat)
    requires 0 < depth
  {
    exists h: nat :: TakenSince(depth, events, n, h, i)
  }

  lemma ClaimMoves(w: World, e: Event, i: nat)
    requires Inv(w) && i < |w.claimed|
    ensures Next(w, e).claimed[i] <==>
      (IsTurn(w, e) && Next(w, e).segment == Some(Segment(i, false))) || (w.claimed[i] && !GivesBack(w, e, i))
  {
    assert SlotHolds(w, i);
    if w.segment.Some? { assert SlotHolds(w, w.segment.value.index); }
  }

  /** A slot is claimed exactly from its acquisition until it is given back. */
  lemma {:induction false} ClaimedExactlyWhileTaken(depth: nat, events: seq<Event>, n: nat, i: nat)
    requires i < depth && n <= |events|
    ensures At(depth, events, n).claimed[i] <==> StillTaken(depth, events, n, i)
    decreases n
  {
    if n > 0 {
      ClaimedExactlyWhileTaken(depth, events, n - 1, i);
      OneOn(depth, events, n - 1);
      ClaimMoves(At(depth, events, n - 1), events[n - 1], i);
      StillTakenStep(depth, events, n, i);
    }
  }

  lemma StillTakenStep(depth: nat, events: seq<Event>, n: nat, i: nat)
    requires i < depth && 0 < n <= |events|
    ensures StillTaken(depth, events, n, i) <==>
      Takes(depth, events, n - 1, i) ||
      (StillTaken(depth, events, n - 1, i) && !GivenBack(depth, events, n - 1, i))
  {
    if Takes(depth, events, n - 1, i) { assert TakenSince(depth, events, n, n - 1, i); }
    if StillTaken(depth, events, n - 1, i) && !GivenBack(depth, events, n - 1, i) {
      StillTakenAfter(depth, events, n, i);
    }
    if StillTaken(depth, events, n, i) && !Takes(depth, events, n - 1, i) { StillTakenBefore(depth, events, n, i); }
  }

  lemma StillTakenAfter(depth: nat, events: seq<Event>, n: nat, i: nat)
    requires i < depth && 0 < n <= |events| && StillTaken(depth, events, n - 1, i)
    requires !GivenBack(depth, events, n - 1, i)
    ensures StillTaken(depth, events, n, i)
  {
    var h: nat :| TakenSince(depth, events, n - 1, h, i);
    assert TakenSince(depth, events, n, h, i);
  }

  lemma StillTakenBefore(depth: nat, events: seq<Event>, n: nat, i: nat)
    requires i < depth && 0 < n <= |events| && StillTaken(depth, events, n, i) && !Takes(depth, events, n - 1, i)
    ensures StillTaken(depth, events, n - 1, i) && !GivenBack(depth, events, n - 1, i)
  {
    var h: nat :| TakenSince(depth, events, n, h, i);
    assert h < n - 1;
    assert TakenSince(depth, events, n - 1, h, i);
  }

  // ---- when an acquisition waits ----

  /** The slot whose turn it is after the first `n` events. */
  ghost function NextSlot(depth: nat, events: seq<Event>, n: nat): (i: nat)
    requires 0 < depth && n <= |events|
    ensures i < depth
  {
    Turns(depth, events, n) % depth
  }

  /** A slot that is not taken is acquired at once, whatever the device does: nothing is waited for. */
  lemma FreeSlotNeedsNoWait(depth: nat, events: seq<Event>, inTime: bool)
    requires 0 < depth && At(depth, events, |events|).segment.None?
    requires !StillTaken(depth, events, |events|, NextSlot(depth, events, |events|))
    ensures var w := At(depth, events, |events|);
      var r := Next(w, Acquire(inTime, true));
      r.segment == Some(Segment(NextSlot(depth, events, |events|), false)) && r.device == w.device
  {
    var n, i := |events|, NextSlot(depth, events, |events|);
    CursorCountsTurns(depth, events, n);
    ClaimedExactlyWhileTaken(depth, events, n, i);
    StartHolds(depth);
    RunKeeps(Start(depth), events[..n]);
    assert SlotHolds(At(depth, events, n), i);
  }

  /** A slot that is taken is acquired exactly when a wait for it comes back. */
  lemma TakenSlotIsWaitedFor(depth: nat, events: seq<Event>, inTime: bool)
    requires 0 < depth && At(depth, events, |events|).segment.None?
    requires StillTaken(depth, events, |events|, NextSlot(depth, events, |events|))
    ensures var w, i := At(depth, events, |events|), NextSlot(depth, events, |events|);
      Next(w, Acquire(inTime, true)).segment ==
        if Synced(w, i, inTime) then Some(Segment(i, false)) else None
  {
    CursorCountsTurns(depth, events, |events|);
    ClaimedExactlyWhileTaken(depth, events, |events|, NextSlot(depth, events, |events|));
  }

  /** The first `depth` acquisitions of a fresh pool wait for nothing and succeed, whatever is still running. */
  lemma FreshSlotsNeedNoWait(depth: nat, events: seq<Event>, inTime: bool)
    requires 0 < depth && At(depth, events, |events|).segment.None? && Turns(depth, events, |events|) < depth
    ensures var w := At(depth, events, |events|);
      var r := Next(w, Acquire(inTime, true));
      r.segment == Some(Segment(Turns(depth, events, |events|), false)) && r.device == w.device
  {
    FreshSlotIsFree(depth, events);
    FreeSlotNeedsNoWait(depth, events, inTime);
  }

  lemma FreshSlotIsFree(depth: nat, events: seq<Event>)
    requires 0 < depth && Turns(depth, events, |events|) < depth
    ensures NextSlot(depth, events, |events|) == Turns(depth, events, |events|)
    ensures !StillTaken(depth, events, |events|, Turns(depth, events, |events|))
  {
    var n, m := |events|, Turns(depth, events, |events|);
    SmallIsItsOwn(m, depth);
    forall h: nat | Takes(depth, events, h, m) ensures false { TakesAnEarlierSlot(depth, events, h, m); }
  }

  lemma SmallIsItsOwn(m: nat, depth: nat)
    requires m < depth
    ensures m % depth == m
  {
  }

  lemma TakesAnEarlierSlot(depth: nat, events: seq<Event>, h: nat, i: nat)
    requires 0 < depth && Takes(depth, events, h, i) && Turns(depth, events, |events|) < depth
    ensures i < Turns(depth, events, |events|)
  {
    TakesItsTurn(depth, events, h, i);
    TurnIsCounted(depth, events, h);
    TurnsGrow(depth, events, h + 1, |events|);
    SmallIsItsOwn(Turns(depth, events, h), depth);
  }
}
