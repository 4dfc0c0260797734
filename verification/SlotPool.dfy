/** The pool of submission slots: a claim, a fence and what one submission owns, per slot. */
module SlotPool {
  import opened Options

  // The device runs what it is handed and finishes when it likes.

  // ---- the device ----

  /**
   * `running[i]` is the submission using slot `i`'s objects, `slotOf` the slot of every submission
   * ever made. `broken[i]` says the slot's last hand-over failed after its fence was reset, and
   * `clean` that nothing was ever reset, recorded or written under a running submission.
   */
  datatype Device = Device(signalled: seq<bool>, running: seq<Option<nat>>, broken: seq<bool>, slotOf: seq<nat>,
    finished: set<nat>, clean: bool)

  ghost predicate DeviceFits(d: Device, depth: nat) {
    |d.signalled| == |d.running| == |d.broken| == depth
  }

  /** The device finishes what runs on a slot, and its fence signals. */
  function Finish(d: Device, i: nat): Device
    requires i < |d.running| == |d.signalled|
  {
    if d.running[i].None? then d
    else
      d.(running := d.running[i := None], signalled := d.signalled[i := true],
        finished := d.finished + {d.running[i].value})
  }

  /** The host resets, records into or writes an object of the slot. */
  function Touch(d: Device, i: nat): Device
    requires i < |d.running|
  {
    d.(clean := d.clean && d.running[i].None?)
  }

  /** A bounded wait: the device may or may not finish within the bound. */
  function Wait(d: Device, i: nat, inTime: bool): Device
    requires i < |d.running| == |d.signalled|
  {
    if inTime then Finish(d, i) else d
  }

  function ResetFence(d: Device, i: nat): Device
    requires i < |d.running| == |d.signalled|
  {
    Touch(d, i).(signalled := d.signalled[i := false])
  }

  function Launch(d: Device, i: nat): Device
    requires i < |d.running| == |d.broken|
  {
    Touch(d, i).(running := d.running[i := Some(|d.slotOf|)], broken := d.broken[i := false], slotOf := d.slotOf + [i])
  }

  // ---- the pool ----

  /** The slot being recorded into, and whether a submission of it may still run. Holding one holds the pool's lock. */
  datatype Segment = Segment(index: nat, inFlight: bool)

  datatype World = World(cursor: nat, claimed: seq<bool>, segment: Option<Segment>, device: Device)

  /** Whether each of the driver's calls in a hand-over succeeds. */
  datatype Driver = Driver(end: bool, fence: bool, queue: bool)

  /** What can happen: a device finishing, or one of the host's calls with the driver's answers. */
  datatype Event =
    | DeviceFinishes(slot: nat)
    | Acquire(inTime: bool, reset: bool)
    | Prepare
    | Submit(driver: Driver)
    | SubmitAndReadBack(driver: Driver, inTime: bool)
    | Abandon
    | Sync(slot: nat, inTime: bool)

  function Start(depth: nat): World {
    World(0, seq(depth, _ => false), None,
      Device(seq(depth, _ => false), seq(depth, _ => None), seq(depth, _ => false), [], {}, true))
  }

  /** Reset the descriptor pool of the slot at the cursor, and claim it. */
  function Claim(w: World, i: nat, d: Device, reset: bool): World
    requires i < |w.claimed| && i < |d.running|
  {
    var next := w.(cursor := (i + 1) % |w.claimed|, device := Touch(d, i));
    if reset then next.(claimed := w.claimed[i := true], segment := Some(Segment(i, false))) else next
  }

  /** End the recording, reset the fence, submit. */
  function HandedOver(d: Device, i: nat, driver: Driver): Device
    requires i < |d.running| == |d.signalled| == |d.broken|
  {
    if !driver.end then d
    else if !driver.fence then Touch(d, i)
    else if !driver.queue then ResetFence(d, i).(broken := d.broken[i := true])
    else Launch(ResetFence(d, i), i)
  }

  predicate HandsOver(driver: Driver) {
    driver.end && driver.fence && driver.queue
  }

  /** Dropping a segment gives the claim back unless a submission may still run. */
  function Released(w: World): World
    requires w.segment.Some? && w.segment.value.index < |w.claimed|
  {
    var s := w.segment.value;
    w.(segment := None, claimed := if s.inFlight then w.claimed else w.claimed[s.index := false])
  }

  ghost predicate Fits(w: World) {
    && DeviceFits(w.device, |w.claimed|) && w.cursor < |w.claimed|
    && (w.segment.Some? ==> w.segment.value.index < |w.claimed|)
  }

  /** One event. A call the pool's lock keeps out, or that has no segment to act on, does not happen. */
  ghost function Next(w: World, e: Event): (r: World)
    requires Fits(w)
    ensures Fits(r) && |r.claimed| == |w.claimed|
  {
    match e
    case DeviceFinishes(slot) => if slot < |w.claimed| then w.(device := Finish(w.device, slot)) else w
    case Acquire(inTime, reset) =>
      if w.segment.Some? then w
      else
        var i := w.cursor;
        var d := if w.claimed[i] then Wait(w.device, i, inTime) else w.device;
        if w.claimed[i] && !d.signalled[i] then w.(cursor := (i + 1) % |w.claimed|, device := d)
        else Claim(w, i, d, reset)
    case Prepare => if w.segment.None? then w else w.(device := Touch(w.device, w.segment.value.index))
    case Submit(driver) =>
      if w.segment.None? then w
      else
        var i := w.segment.value.index;
        Released(w.(device := HandedOver(w.device, i, driver), segment := Some(Segment(i, HandsOver(driver)))))
    case SubmitAndReadBack(driver, inTime) =>
      if w.segment.None? then w
      else
        var i := w.segment.value.index;
        var d := HandedOver(w.device, i, driver);
        if !HandsOver(driver) then Released(w.(device := d))
        else
          var waited := Wait(d, i, inTime);
          if waited.signalled[i] then Released(w.(device := Touch(waited, i), segment := Some(Segment(i, false))))
          else Released(w.(device := waited, segment := Some(Segment(i, true))))
    case Abandon => if w.segment.None? then w else Released(w)
    case Sync(slot, inTime) =>
      if w.segment.Some? || slot >= |w.claimed| then w
      else
        var d := Wait(w.device, slot, inTime);
        if d.signalled[slot] then w.(device := d, claimed := w.claimed[slot := false]) else w.(device := d)
  }

  /** Whether a wait on the slot comes back successfully. */
  ghost predicate Synced(w: World, slot: nat, inTime: bool)
    requires Fits(w)
  {
    w.segment.None? && slot < |w.claimed| && Wait(w.device, slot, inTime).signalled[slot]
  }

  // ---- what every run keeps ----

  ghost predicate SlotHolds(w: World, i: nat)
    requires Fits(w) && i < |w.claimed|
  {
    && (w.device.running[i].Some? ==>
        w.claimed[i] && !w.device.signalled[i] && !w.device.broken[i] &&
        w.device.running[i].value < |w.device.slotOf| && w.device.slotOf[w.device.running[i].value] == i)
    && (w.segment == Some(Segment(i, false)) ==> w.claimed[i] && w.device.running[i].None?)
    && (w.device.broken[i] ==> !w.device.signalled[i] && w.device.running[i].None?)
    && (!w.device.signalled[i] && w.device.running[i].None? ==>
         w.device.broken[i] || forall s: nat :: s < |w.device.slotOf| ==> w.device.slotOf[s] != i)
  }

  ghost predicate SubmissionHolds(w: World, s: nat)
    requires Fits(w) && s < |w.device.slotOf|
  {
    w.device.slotOf[s] < |w.claimed| && (s in w.device.finished || w.device.running[w.device.slotOf[s]] == Some(s))
  }

  ghost predicate Inv(w: World) {
    && Fits(w) && w.device.clean
    && (w.segment.Some? ==> !w.segment.value.inFlight)
    && (forall i: nat :: i < |w.claimed| ==> SlotHolds(w, i))
    && (forall s: nat :: s < |w.device.slotOf| ==> SubmissionHolds(w, s))
  }

  lemma StartHolds(depth: nat)
    requires depth > 0
    ensures Inv(Start(depth))
  {
  }

  /** Finishing a slot's submission moves nothing else. */
  lemma FinishKeeps(w: World, i: nat)
    requires Inv(w) && i < |w.claimed|
    ensures Inv(w.(device := Finish(w.device, i))) && Finish(w.device, i).running[i].None?
  {
    var r := w.(device := Finish(w.device, i));
    forall s: nat | s < |r.device.slotOf| ensures SubmissionHolds(r, s) { assert SubmissionHolds(w, s); }
    forall j: nat | j < |r.claimed| ensures SlotHolds(r, j) { assert SlotHolds(w, j); }
  }

  lemma WaitKeeps(w: World, i: nat, inTime: bool)
    requires Inv(w) && i < |w.claimed|
    ensures Inv(w.(device := Wait(w.device, i, inTime)))
    ensures Wait(w.device, i, inTime).signalled[i] ==> Wait(w.device, i, inTime).running[i].None?
  {
    FinishKeeps(w, i);
    assert SlotHolds(w, i);
  }

  /** A claim on an idle slot. */
  lemma ClaimKeeps(w: World, i: nat, reset: bool)
    requires Inv(w) && i == w.cursor && w.segment.None? && w.device.running[i].None?
    ensures Inv(Claim(w, i, w.device, reset))
  {
    var r := Claim(w, i, w.device, reset);
    forall s: nat | s < |r.device.slotOf| ensures SubmissionHolds(r, s) { assert SubmissionHolds(w, s); }
    forall j: nat | j < |r.claimed| ensures SlotHolds(r, j) { assert SlotHolds(w, j); }
  }

  /** A hand-over on the held slot, and what dropping the segment then leaves. */
  lemma HandOverKeeps(w: World, driver: Driver)
    requires Inv(w) && w.segment.Some?
    ensures var i := w.segment.value.index;
      Inv(Released(w.(device := HandedOver(w.device, i, driver), segment := Some(Segment(i, HandsOver(driver))))))
  {
    var i := w.segment.value.index;
    assert SlotHolds(w, i);
    var r := Released(w.(device := HandedOver(w.device, i, driver), segment := Some(Segment(i, HandsOver(driver)))));
    forall s: nat | s < |r.device.slotOf| ensures SubmissionHolds(r, s) {
      if s < |w.device.slotOf| { assert SubmissionHolds(w, s); }
    }
    forall j: nat | j < |r.claimed| ensures SlotHolds(r, j) {
      assert SlotHolds(w, j);
      assert forall s: nat :: s < |w.device.slotOf| ==> r.device.slotOf[s] == w.device.slotOf[s];
    }
  }

  /** Giving back an idle slot. */
  lemma UnclaimKeeps(w: World, i: nat)
    requires Inv(w) && i < |w.claimed| && w.device.running[i].None? && (w.segment.Some? ==> w.segment.value.index != i)
    ensures Inv(w.(claimed := w.claimed[i := false]))
  {
    var r := w.(claimed := w.claimed[i := false]);
    forall s: nat | s < |r.device.slotOf| ensures SubmissionHolds(r, s) { assert SubmissionHolds(w, s); }
    forall j: nat | j < |r.claimed| ensures SlotHolds(r, j) { assert SlotHolds(w, j); }
  }

  lemma ReleaseKeeps(w: World)
    requires Inv(w) && w.segment.Some?
    ensures Inv(Released(w))
  {
    var i := w.segment.value.index;
    assert SlotHolds(w, i);
    var freed := w.(segment := None);
    forall s: nat | s < |w.device.slotOf| ensures SubmissionHolds(freed, s) { assert SubmissionHolds(w, s); }
    forall j: nat | j < |w.claimed| ensures SlotHolds(freed, j) { assert SlotHolds(w, j); }
    UnclaimKeeps(freed, i);
  }

  /** A read-back is a hand-over, a wait under the lock, and a read of staging nothing uses. */
  lemma ReadBackKeeps(w: World, driver: Driver, inTime: bool)
    requires Inv(w) && w.segment.Some?
    ensures Inv(Next(w, SubmitAndReadBack(driver, inTime)))
  {
    var i := w.segment.value.index;
    HandOverKeeps(w, driver);
    if HandsOver(driver) {
      var sent := Released(w.(device := HandedOver(w.device, i, driver), segment := Some(Segment(i, true))));
      WaitKeeps(sent, i, inTime);
      var waited := sent.(device := Wait(sent.device, i, inTime));
      if waited.device.signalled[i] {
        UnclaimKeeps(waited, i);
        assert Touch(waited.device, i) == waited.device;
      }
    }
  }

  lemma AcquireKeeps(w: World, inTime: bool, reset: bool)
    requires Inv(w) && w.segment.None?
    ensures Inv(Next(w, Acquire(inTime, reset)))
  {
    var i := w.cursor;
    assert SlotHolds(w, i);
    if w.claimed[i] {
      WaitKeeps(w, i, inTime);
      var waited := w.(device := Wait(w.device, i, inTime));
      if waited.device.signalled[i] {
        ClaimKeeps(waited, i, reset);
      } else {
        MovedOn(waited);
      }
    } else {
      ClaimKeeps(w, i, reset);
    }
  }

  lemma MovedOn(w: World)
    requires Inv(w)
    ensures Inv(w.(cursor := (w.cursor + 1) % |w.claimed|))
  {
    var r := w.(cursor := (w.cursor + 1) % |w.claimed|);
    forall s: nat | s < |r.device.slotOf| ensures SubmissionHolds(r, s) { assert SubmissionHolds(w, s); }
    forall j: nat | j < |r.claimed| ensures SlotHolds(r, j) { assert SlotHolds(w, j); }
  }

  /** Every event keeps the invariant. */
  lemma NextKeeps(w: World, e: Event)
    requires Inv(w)
    ensures Inv(Next(w, e))
  {
    match e {
      case DeviceFinishes(slot) =>
        if slot < |w.claimed| { FinishKeeps(w, slot); }
      case Acquire(inTime, reset) =>
        if w.segment.None? { AcquireKeeps(w, inTime, reset); }
      case Prepare =>
        if w.segment.Some? {
          assert SlotHolds(w, w.segment.value.index);
          assert Touch(w.device, w.segment.value.index) == w.device;
        }
      case Submit(driver) =>
        if w.segment.Some? { HandOverKeeps(w, driver); }
      case SubmitAndReadBack(driver, inTime) =>
        if w.segment.Some? { ReadBackKeeps(w, driver, inTime); }
      case Abandon =>
        if w.segment.Some? { ReleaseKeeps(w); }
      case Sync(slot, inTime) =>
        if w.segment.None? && slot < |w.claimed| {
          WaitKeeps(w, slot, inTime);
          var waited := w.(device := Wait(w.device, slot, inTime));
          if waited.device.signalled[slot] { UnclaimKeeps(waited, slot); }
        }
    }
  }

  // ---- whole runs ----

  ghost function Run(w: World, events: seq<Event>): (r: World)
    requires Fits(w)
    ensures Fits(r) && |r.claimed| == |w.claimed|
  {
    if events == [] then w else Next(Run(w, events[..|events| - 1]), events[|events| - 1])
  }

  lemma {:induction false} RunKeeps(w: World, events: seq<Event>)
    requires Inv(w)
    ensures Inv(Run(w, events))
  {
    if events != [] {
      RunKeeps(w, events[..|events| - 1]);
      NextKeeps(Run(w, events[..|events| - 1]), events[|events| - 1]);
    }
  }

  /**
  Over every run, pool depth and device timing: nothing is reset or recorded under a running submission, and an
  unclaimed slot is idle.
   */
  lemma NothingReusedWhileRunning(depth: nat, events: seq<Event>)
    requires depth > 0
    ensures var w := Run(Start(depth), events);
      w.device.clean && forall i: nat :: i < depth && !w.claimed[i] ==> w.device.running[i].None?
  {
    StartHolds(depth);
    RunKeeps(Start(depth), events);
    var w := Run(Start(depth), events);
    forall i: nat | i < depth && !w.claimed[i] ensures w.device.running[i].None? {
      assert SlotHolds(w, i);
    }
  }

  /** A wait that succeeds means the token's own submission finished, however often its slot was used since. */
  lemma SyncedMeansFinished(depth: nat, events: seq<Event>, s: nat, inTime: bool)
    requires depth > 0
    requires var w := Run(Start(depth), events); s < |w.device.slotOf| && Synced(w, w.device.slotOf[s], inTime)
    ensures var w := Run(Start(depth), events); s in Next(w, Sync(w.device.slotOf[s], inTime)).device.finished
  {
    StartHolds(depth);
    RunKeeps(Start(depth), events);
    SyncFinishes(Run(Start(depth), events), s, inTime);
  }

  lemma SyncFinishes(w: World, s: nat, inTime: bool)
    requires Inv(w) && s < |w.device.slotOf| && Synced(w, w.device.slotOf[s], inTime)
    ensures s in Next(w, Sync(w.device.slotOf[s], inTime)).device.finished
  {
    var after := Next(w, Sync(w.device.slotOf[s], inTime));
    assert SubmissionHolds(w, s);
    WaitKeeps(w, w.device.slotOf[s], inTime);
    NextKeeps(w, Sync(w.device.slotOf[s], inTime));
    assert SubmissionHolds(after, s);
  }

  // ---- when a wait fails ----

  /** The driver's answers, when the event is a hand-over of what is recorded into slot `i`. */
  ghost function HandOverOf(w: World, e: Event, i: nat): Option<Driver> {
    if w.segment.None? || w.segment.value.index != i then None
    else
      match e
      case Submit(driver) => Some(driver)
      case SubmitAndReadBack(driver, _) => Some(driver)
      case _ => None
  }

  /** For each event of a run, its hand-over on slot `i` if it is one. */
  ghost function HandOvers(depth: nat, events: seq<Event>, i: nat): (r: seq<Option<Driver>>)
    requires depth > 0
    ensures |r| == |events|
  {
    if events == [] then []
    else
      var before := events[..|events| - 1];
      HandOvers(depth, before, i) + [HandOverOf(Run(Start(depth), before), events[|events| - 1], i)]
  }

  predicate Sent(d: Option<Driver>) {
    d.Some? && HandsOver(d.value)
  }

  /** The recording ended and the fence was reset, and the queue took nothing. */
  predicate QueueRefused(d: Option<Driver>) {
    d.Some? && d.value.end && d.value.fence && !d.value.queue
  }

  /** A refusal after which nothing was sent. */
  ghost predicate RefusedSince(answers: seq<Option<Driver>>, k: nat) {
    k < |answers| && QueueRefused(answers[k]) && forall j: nat :: k < j < |answers| ==> !Sent(answers[j])
  }

  ghost predicate BrokeLast(answers: seq<Option<Driver>>) {
    exists k: nat :: RefusedSince(answers, k)
  }

  lemma BrokeLastStep(before: seq<Option<Driver>>, d: Option<Driver>)
    ensures BrokeLast(before + [d]) <==> QueueRefused(d) || (!Sent(d) && BrokeLast(before))
  {
    var answers := before + [d];
    if QueueRefused(d) { assert RefusedSince(answers, |before|); }
    if BrokeLast(answers) {
      var k: nat :| RefusedSince(answers, k);
      assert answers[|before|] == d;
      if k < |before| {
        forall j: nat | k < j < |before| ensures !Sent(before[j]) { assert answers[j] == before[j]; }
        assert RefusedSince(before, k);
      }
    }
    if !Sent(d) && BrokeLast(before) {
      var k: nat :| RefusedSince(before, k);
      assert RefusedSince(answers, k);
    }
  }

  lemma BreaksExactly(w: World, e: Event, i: nat)
    requires Fits(w) && i < |w.claimed|
    ensures var d := HandOverOf(w, e, i);
      Next(w, e).device.broken[i] <==> QueueRefused(d) || (!Sent(d) && w.device.broken[i])
  {
    if e.Submit? && w.segment.Some? {
      HandOverBreaks(w.device, w.segment.value.index, e.driver, i);
    } else if e.SubmitAndReadBack? && w.segment.Some? {
      HandOverBreaks(w.device, w.segment.value.index, e.driver, i);
      assert Next(w, e).device.broken == HandedOver(w.device, w.segment.value.index, e.driver).broken;
    } else {
      assert Next(w, e).device.broken == w.device.broken;
    }
  }

  lemma HandOverBreaks(d: Device, held: nat, driver: Driver, i: nat)
    requires held < |d.running| == |d.signalled| == |d.broken| && i < |d.broken|
    ensures HandedOver(d, held, driver).broken[i] <==>
      if held != i then d.broken[i] else QueueRefused(Some(driver)) || (!HandsOver(driver) && d.broken[i])
  {
  }

  /** A slot is broken exactly since its last refusal, when nothing was sent on it after. */
  lemma {:induction false} BrokenExactly(depth: nat, events: seq<Event>, i: nat)
    requires i < depth
    ensures Run(Start(depth), events).device.broken[i] <==> BrokeLast(HandOvers(depth, events, i))
    decreases |events|
  {
    if events != [] {
      var before, last := events[..|events| - 1], events[|events| - 1];
      BrokenExactly(depth, before, i);
      BreaksExactly(Run(Start(depth), before), last, i);
      BrokeLastStep(HandOvers(depth, before, i), HandOverOf(Run(Start(depth), before), last, i));
    }
  }

  lemma SubmissionsAreKept(w: World, e: Event, i: nat)
    requires Fits(w)
    ensures i in w.device.slotOf ==> i in Next(w, e).device.slotOf
    ensures Sent(HandOverOf(w, e, i)) ==> i in Next(w, e).device.slotOf
  {
  }

  lemma {:induction false} SentIsKept(depth: nat, events: seq<Event>, h: nat, i: nat)
    requires depth > 0 && h < |events| && Sent(HandOvers(depth, events, i)[h])
    ensures i in Run(Start(depth), events).device.slotOf
    decreases |events|
  {
    var before := events[..|events| - 1];
    SubmissionsAreKept(Run(Start(depth), before), events[|events| - 1], i);
    if h < |before| { SentIsKept(depth, before, h, i); }
  }

  lemma WaitFailsExactlyWhenBroken(w: World, i: nat)
    requires Inv(w) && i < |w.claimed| && w.segment.None? && i in w.device.slotOf
    ensures !Synced(w, i, true) <==> w.device.broken[i]
  {
    assert SlotHolds(w, i);
  }

  /**
  With the device in time, the wait for what event `h` sent on slot `i` fails exactly when, later on that slot,
  the queue refused a hand-over whose fence was already reset, and took none since.
   */
  lemma SyncFailsExactlyWhenRefused(depth: nat, events: seq<Event>, h: nat, i: nat)
    requires i < depth && h < |events| && Sent(HandOvers(depth, events, i)[h]) &&
      Run(Start(depth), events).segment.None?
    ensures !Synced(Run(Start(depth), events), i, true) <==>
      exists k: nat :: h < k && RefusedSince(HandOvers(depth, events, i), k)
  {
    StartHolds(depth);
    RunKeeps(Start(depth), events);
    SentIsKept(depth, events, h, i);
    BrokenExactly(depth, events, i);
    WaitFailsExactlyWhenBroken(Run(Start(depth), events), i);
    RefusedLater(HandOvers(depth, events, i), h);
  }

  lemma RefusedLater(answers: seq<Option<Driver>>, h: nat)
    requires h < |answers| && Sent(answers[h])
    ensures BrokeLast(answers) <==> exists k: nat :: h < k && RefusedSince(answers, k)
  {
  }

  /** Such a run: a finished submission whose slot a failed hand-over took, on a pool of one. */
  lemma FinishedYetUnwaitable()
    ensures var events :=
      [Acquire(true, true), Submit(Driver(true, true, true)), DeviceFinishes(0), Acquire(true, true),
      Submit(Driver(true, true, false))];
      var w := Run(Start(1), events);
      w.device.slotOf == [0] && 0 in w.device.finished && w.segment.None? && !Synced(w, 0, true)
  {
    var a, b, c := Acquire(true, true), Submit(Driver(true, true, true)), DeviceFinishes(0);
    var d, e := Acquire(true, true), Submit(Driver(true, true, false));
    RunOne(Start(1), [], a);
    RunOne(Start(1), [a], b);
    RunOne(Start(1), [a, b], c);
    RunOne(Start(1), [a, b, c], d);
    RunOne(Start(1), [a, b, c, d], e);
    assert [] + [a] == [a] && [a] + [b] == [a, b] && [a, b] + [c] == [a, b, c];
    assert [a, b, c] + [d] == [a, b, c, d] && [a, b, c, d] + [e] == [a, b, c, d, e];
  }

  lemma RunOne(w: World, events: seq<Event>, e: Event)
    requires Fits(w)
    ensures Run(w, events + [e]) == Next(Run(w, events), e)
  {
    assert (events + [e])[..|events|] == events;
  }

  // ---- the context's own methods ----

  /** The slots of a context. Each method is one event; the driver's and the device's answers are its arguments. */
  class Slots {
    var cursor: nat
    var claimed: seq<bool>
    var segment: Option<Segment>
    var device: Device

    ghost function Now(): World
      reads this
    {
      World(cursor, claimed, segment, device)
    }

    ghost predicate Valid()
      reads this
    {
      Inv(Now())
    }

    constructor (depth: nat)
      requires depth > 0
      ensures Valid() && Now() == Start(depth)
    {
      cursor, claimed, segment := 0, seq(depth, _ => false), None;
      device := Device(seq(depth, _ => false), seq(depth, _ => None), seq(depth, _ => false), [], {}, true);
      new;
      StartHolds(depth);
    }

    /** `wait_on`: block until the fence signals or the bound passes. */
    method WaitOn(i: nat, inTime: bool) returns (ok: bool)
      requires i < |device.running| == |device.signalled|
      modifies this`device
      ensures device == Wait(old(device), i, inTime) && ok == device.signalled[i]
    {
      device := Wait(device, i, inTime);
      ok := device.signalled[i];
    }

    /** `acquire`: round-robin; a claimed slot is waited for, and its pool reset only then. */
    method Acquire(inTime: bool, reset: bool) returns (ok: bool)
      requires Valid() && segment.None?
      modifies this
      ensures Valid() && Now() == Next(old(Now()), Event.Acquire(inTime, reset))
      ensures cursor == (old(cursor) + 1) % |claimed| && (ok <==> segment.Some?)
      ensures ok ==>
        segment == Some(Segment(old(cursor), false)) && claimed[old(cursor)] && device.running[old(cursor)].None?
    {
      ghost var was := Now();
      NextKeeps(was, Event.Acquire(inTime, reset));
      var index := cursor;
      assert SlotHolds(was, index);
      cursor := (index + 1) % |claimed|;
      if claimed[index] {
        var waited := WaitOn(index, inTime);
        if !waited { return false; }
      }
      device := Touch(device, index);
      if !reset { return false; }
      claimed := claimed[index := true];
      segment := Some(Segment(index, false));
      assert SlotHolds(Now(), index);
      return true;
    }

    /** `reserve`, `begin` and `record`: they write what the held slot owns. */
    method Prepare()
      requires Valid() && segment.Some?
      modifies this
      ensures Valid() && Now() == Next(old(Now()), Event.Prepare) && device == old(device)
    {
      NextKeeps(Now(), Event.Prepare);
      assert SlotHolds(Now(), segment.value.index);
      device := Touch(device, segment.value.index);
    }

    /** `hand_to_queue`: the submission is in flight only after the queue took it. */
    method HandToQueue(driver: Driver) returns (ok: bool)
      requires segment.Some? && segment.value.index < |device.running| == |device.signalled| == |device.broken|
      requires !segment.value.inFlight
      modifies this`device, this`segment
      ensures device == HandedOver(old(device), old(segment).value.index, driver)
      ensures ok == HandsOver(driver) && segment == Some(Segment(old(segment).value.index, ok))
    {
      var i := segment.value.index;
      if !driver.end { return false; }
      if !driver.fence {
        device := Touch(device, i);
        return false;
      }
      device := ResetFence(device, i);
      if !driver.queue {
        device := device.(broken := device.broken[i := true]);
        return false;
      }
      device := Launch(device, i);
      segment := Some(Segment(i, true));
      return true;
    }

    /** Dropping the segment. */
    method Drop()
      requires segment.Some? && segment.value.index < |claimed|
      modifies this`claimed, this`segment
      ensures Now() == Released(old(Now()))
    {
      if !segment.value.inFlight { claimed := claimed[segment.value.index := false]; }
      segment := None;
    }

    /** `submit`: the slot stays claimed, and its number is the token. */
    method Submit(driver: Driver) returns (token: Option<nat>)
      requires Valid() && segment.Some?
      modifies this
      ensures Valid() && Now() == Next(old(Now()), Event.Submit(driver)) && segment.None?
      ensures token == if HandsOver(driver) then Some(old(segment).value.index) else None
      ensures token.Some? ==>
        |device.slotOf| == |old(device).slotOf| + 1 && device.slotOf[|old(device).slotOf|] == token.value &&
        claimed[token.value]
    {
      NextKeeps(Now(), Event.Submit(driver));
      var i := segment.value.index;
      assert SlotHolds(Now(), i);
      var handed := HandToQueue(driver);
      Drop();
      return if handed then Some(i) else None;
    }

    /** `submit_and_read_back`: the staging is read inside the claim, after the wait. */
    method SubmitAndReadBack(driver: Driver, inTime: bool) returns (ok: bool)
      requires Valid() && segment.Some?
      modifies this
      ensures Valid() && Now() == Next(old(Now()), Event.SubmitAndReadBack(driver, inTime)) && segment.None?
      ensures ok <==> HandsOver(driver) && inTime
      ensures ok ==> !claimed[old(segment).value.index] && device.running[old(segment).value.index].None?
      ensures !ok ==> claimed[old(segment).value.index] == HandsOver(driver)
    {
      NextKeeps(Now(), Event.SubmitAndReadBack(driver, inTime));
      var i := segment.value.index;
      assert SlotHolds(Now(), i);
      ok := HandToQueue(driver);
      if ok {
        ok := WaitOn(i, inTime);
        if ok {
          segment := Some(Segment(i, false));
          device := Touch(device, i);
        }
      }
      Drop();
      assert SlotHolds(Now(), i);
    }

    /** `sync`: wait for a token's slot, and give it back only when its fence has signalled. */
    method Sync(token: nat, inTime: bool) returns (ok: bool)
      requires Valid() && segment.None?
      modifies this
      ensures Valid() && Now() == Next(old(Now()), Event.Sync(token, inTime)) && ok == Synced(old(Now()), token, inTime)
      ensures ok ==> token < |claimed| && forall s: nat :: s < |device.slotOf| && device.slotOf[s] == token ==>
        s in device.finished
      ensures ok ==> claimed == old(claimed)[token := false]
      ensures !ok ==> claimed == old(claimed)
    {
      NextKeeps(Now(), Event.Sync(token, inTime));
      if token >= |claimed| { return false; }
      WaitKeeps(Now(), token, inTime);
      ok := WaitOn(token, inTime);
      if ok {
        claimed := claimed[token := false];
        forall s: nat | s < |device.slotOf| && device.slotOf[s] == token ensures s in device.finished {
          assert SubmissionHolds(Now(), s);
        }
      }
    }
  }
}
