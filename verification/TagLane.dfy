/**
 * The cancellable tag lane (crates/daemon/src/tag_lane.rs) as interleaved atomic steps.
 *
 * Every request has a worker, which takes the connection lock, claims the request, runs the
 * closure and finishes, and a canceller, which runs when the awaiting future is dropped. Each
 * load, compare-and-swap, lock operation and critical section is one step; any request may take
 * the next step.
 */
module TagLane {
  import opened Wrappers

  /** The phase word. */
  datatype Phase = Queued | Running | Finished | Cancelled {
    /** Phases only ever move up this ladder. */
    function Rank(): nat {
      match this
      case Queued => 0
      case Running => 1
      case Finished => 2
      case Cancelled => 2
    }
  }

  /** Where the blocking closure of a request stands. */
  datatype Worker =
    | WaitingForLock
    | Claiming      // holds the lock, about to swap Queued for Running
    | Checking      // claimed, about to look whether it was cancelled meanwhile
    | Executing     // inside the caller's closure
    | Finishing     // the completion guard is being dropped, on return or on unwinding
    | AwaitingAck   // lost the finishing swap; about to take the delivery mutex and test the flag
    | Asleep        // waiting on the condition variable
    | Releasing     // about to drop the connection guard
    | Gone

  /** Where the drop of the awaiting future stands. */
  datatype Canceller =
    | Armed
    | Loading
    | Swapping(seen: Phase)
    | Interrupting
    | Acknowledging
    | Returned

  /** One request; the last four fields record its history. */
  datatype Request = Request(
    phase: Phase,
    delivered: bool,
    worker: Worker,
    canceller: Canceller,
    cancelledInQueue: bool,
    ran: bool,
    interrupts: nat,
    loads: nat)

  const NEW_REQUEST := Request(Queued, false, WaitingForLock, Armed, false, false, 0, 0)

  datatype Lane = Lane(requests: seq<Request>, lock: Option<nat>)

  const EMPTY_LANE := Lane([], None)

  /** Who moves next; a panic of the closure is the same step as its return. */
  datatype Event =
    | Submit
    | Work(id: nat)
    | SpuriousWake(id: nat)
    | Cancel(id: nat)

  // ---- The steps -----------------------------------------------------------

  /** The worker's next step needs the lock to be free, or the sleeper to have been woken. */
  predicate WorkEnabled(lane: Lane, id: nat)
    requires id < |lane.requests|
  {
    match lane.requests[id].worker
    case WaitingForLock => lane.lock == None
    case Asleep => false
    case Gone => false
    case _ => true
  }

  predicate Enabled(lane: Lane, e: Event) {
    match e
    case Submit => true
    case Work(id) => id < |lane.requests| && WorkEnabled(lane, id)
    case SpuriousWake(id) => id < |lane.requests| && lane.requests[id].worker == Asleep
    case Cancel(id) => id < |lane.requests| && lane.requests[id].canceller != Returned
  }

  /** One step of the worker on its own request. */
  function WorkStep(r: Request): Request {
    match r.worker
    case WaitingForLock => r.(worker := Claiming)
    case Claiming =>
      if r.phase == Queued then r.(phase := Running, worker := Checking) else r.(worker := Releasing)
    case Checking =>
      if r.phase == Cancelled then r.(worker := Finishing) else r.(worker := Executing, ran := true)
    case Executing => r.(worker := Finishing)
    case Finishing =>
      if r.phase == Running then r.(phase := Finished, worker := Releasing) else r.(worker := AwaitingAck)
    case AwaitingAck => if r.delivered then r.(worker := Releasing) else r.(worker := Asleep)
    case Releasing => r.(worker := Gone)
    case Asleep => r
    case Gone => r
  }

  /** One step of the canceller; a failed swap goes round the loop again. */
  function CancelStep(r: Request): Request {
    match r.canceller
    case Armed => r.(canceller := Loading)
    case Loading =>
      if r.phase.Finished? || r.phase.Cancelled? then r.(canceller := Returned, loads := r.loads + 1)
      else r.(canceller := Swapping(r.phase), loads := r.loads + 1)
    case Swapping(seen) =>
      if r.phase != seen then r.(canceller := Loading)
      else if seen == Queued then r.(phase := Cancelled, canceller := Returned, cancelledInQueue := true)
      else r.(phase := Cancelled, canceller := Interrupting)
    case Interrupting => r.(canceller := Acknowledging, interrupts := r.interrupts + 1)
    case Acknowledging =>
      r.(canceller := Returned, delivered := true, worker := if r.worker == Asleep then AwaitingAck else r.worker)
    case Returned => r
  }

  function Step(lane: Lane, e: Event): Lane
    requires Enabled(lane, e)
  {
    match e
    case Submit => lane.(requests := lane.requests + [NEW_REQUEST])
    case Work(id) =>
      var r := lane.requests[id];
      var lane' := lane.(requests := lane.requests[id := WorkStep(r)]);
      if r.worker == WaitingForLock then lane'.(lock := Some(id))
      else if r.worker == Releasing then lane'.(lock := None)
      else lane'
    case SpuriousWake(id) => lane.(requests := lane.requests[id := lane.requests[id].(worker := AwaitingAck)])
    case Cancel(id) => lane.(requests := lane.requests[id := CancelStep(lane.requests[id])])
  }

  /** The step that calls the shared interrupt handle for request `id`. */
  predicate Interrupts(lane: Lane, e: Event, id: nat) {
    e == Cancel(id) && id < |lane.requests| && lane.requests[id].canceller == Interrupting
  }

  // ---- What every step keeps -----------------------------------------------

  predicate HoldsLock(w: Worker) {
    w != WaitingForLock && w != Gone
  }

  /** The worker has claimed the request and not yet finished with it. */
  predicate Owning(w: Worker) {
    w == Checking || w == Executing || w == Finishing || w == AwaitingAck || w == Asleep
  }

  predicate RequestInv(r: Request) {
    && (r.worker == WaitingForLock || r.worker == Claiming ==> r.phase == Queued || r.phase == Cancelled)
    && (r.worker == Checking || r.worker == Executing || r.worker == Finishing ==>
          r.phase == Running || r.phase == Cancelled)
    && (r.worker == AwaitingAck || r.worker == Asleep ==> r.phase == Cancelled)
    && (r.worker == Releasing || r.worker == Gone ==> r.phase == Finished || r.phase == Cancelled)
    && (r.worker == Asleep ==> !r.delivered)
    // Who cancelled, and how far the interrupt has got.
    && (r.cancelledInQueue ==> r.phase == Cancelled && !Owning(r.worker) && !r.ran && r.canceller == Returned)
    && (r.phase == Cancelled && !r.cancelledInQueue ==>
          r.canceller == Interrupting || r.canceller == Acknowledging || r.delivered)
    && (r.canceller == Interrupting || r.canceller == Acknowledging ==>
          r.phase == Cancelled && Owning(r.worker) && !r.delivered && !r.cancelledInQueue)
    && (r.delivered ==> r.phase == Cancelled && r.canceller == Returned && !r.cancelledInQueue)
    && r.interrupts == (if r.canceller == Acknowledging || r.delivered then 1 else 0)
    // The closure has run only in a request that was claimed, and in every one that finished.
    && (r.ran ==> r.phase != Queued && r.worker != WaitingForLock && r.worker != Claiming)
    && (r.phase == Finished || r.worker == Executing || (r.worker == Finishing && r.phase == Running) ==> r.ran)
    // A canceller that has returned found the request over, or has cancelled it.
    && (r.canceller == Returned ==> r.phase == Finished || r.phase == Cancelled)
    // The retry loop.
    && (r.canceller.Swapping? ==>
          && !r.canceller.seen.Finished? && !r.canceller.seen.Cancelled?
          && (r.canceller.seen == r.phase || r.canceller.seen.Rank() < r.phase.Rank())
          && r.loads <= r.canceller.seen.Rank() + 1)
    && (r.canceller == Loading ==> r.loads <= r.phase.Rank())
    && (r.canceller == Armed ==> r.loads == 0)
    && r.loads <= 3
  }

  predicate LockInv(lane: Lane) {
    && (forall i :: 0 <= i < |lane.requests| ==> (HoldsLock(lane.requests[i].worker) <==> lane.lock == Some(i)))
    && (lane.lock.Some? ==> lane.lock.value < |lane.requests|)
  }

  predicate LaneInv(lane: Lane) {
    && (forall i :: 0 <= i < |lane.requests| ==> RequestInv(lane.requests[i]))
    && LockInv(lane)
  }

  lemma WorkKeeps(r: Request)
    requires RequestInv(r)
    ensures RequestInv(WorkStep(r))
  {
  }

  lemma CancelKeeps(r: Request)
    requires RequestInv(r)
    ensures RequestInv(CancelStep(r))
    ensures HoldsLock(CancelStep(r).worker) <==> HoldsLock(r.worker)
  {
  }

  /** The phase word only moves up, whoever steps. */
  lemma PhaseAdvances(r: Request)
    requires RequestInv(r)
    ensures WorkStep(r).phase == r.phase || WorkStep(r).phase.Rank() > r.phase.Rank()
    ensures CancelStep(r).phase == r.phase || CancelStep(r).phase.Rank() > r.phase.Rank()
  {
  }

  lemma RequestsKept(lane: Lane, e: Event)
    requires LaneInv(lane) && Enabled(lane, e)
    ensures forall i :: 0 <= i < |Step(lane, e).requests| ==> RequestInv(Step(lane, e).requests[i])
  {
    match e {
      case Submit =>
      case Work(id) => WorkKeeps(lane.requests[id]);
      case SpuriousWake(id) => assert RequestInv(lane.requests[id]);
      case Cancel(id) => CancelKeeps(lane.requests[id]);
    }
  }

  lemma LockKept(lane: Lane, e: Event)
    requires LaneInv(lane) && Enabled(lane, e)
    ensures LockInv(Step(lane, e))
  {
    match e {
      case Submit =>
      case Work(id) =>
      case SpuriousWake(id) =>
      case Cancel(id) => CancelKeeps(lane.requests[id]);
    }
  }

  lemma StepKeeps(lane: Lane, e: Event)
    requires LaneInv(lane) && Enabled(lane, e)
    ensures LaneInv(Step(lane, e))
  {
    RequestsKept(lane, e);
    LockKept(lane, e);
  }

  // ---- Runs ----------------------------------------------------------------

  /** `events` can be taken from `lane`, one after the other. */
  predicate CanRun(lane: Lane, events: seq<Event>)
    decreases |events|
  {
    events == [] || (Enabled(lane, events[0]) && CanRun(Step(lane, events[0]), events[1..]))
  }

  function After(lane: Lane, events: seq<Event>): Lane
    requires CanRun(lane, events)
    decreases |events|
  {
    if events == [] then lane else After(Step(lane, events[0]), events[1..])
  }

  lemma {:induction false} RunKeeps(lane: Lane, events: seq<Event>)
    requires LaneInv(lane) && CanRun(lane, events)
    ensures LaneInv(After(lane, events))
    decreases |events|
  {
    if events != [] {
      StepKeeps(lane, events[0]);
      RunKeeps(Step(lane, events[0]), events[1..]);
    }
  }

  // ---- Safety --------------------------------------------------------------

  /**
   * In every run of any number of requests, an interrupt issued for request `id` happens while
   * `id` itself holds the connection, and the connection stays with `id` until the interrupt has
   * been acknowledged.
   */
  lemma InterruptHitsOnlyItsOwner(events: seq<Event>, e: Event, id: nat)
    requires CanRun(EMPTY_LANE, events)
    requires Interrupts(After(EMPTY_LANE, events), e, id)
    ensures After(EMPTY_LANE, events).lock == Some(id)
    ensures Owning(After(EMPTY_LANE, events).requests[id].worker)
    ensures Step(After(EMPTY_LANE, events), e).lock == Some(id)
  {
    RunKeeps(EMPTY_LANE, events);
  }

  /** While an interrupt is on its way, no step takes the connection from its owner. */
  lemma NoHandoffBeforeAck(events: seq<Event>, e: Event, id: nat)
    requires CanRun(EMPTY_LANE, events) && Enabled(After(EMPTY_LANE, events), e)
    requires var lane := After(EMPTY_LANE, events);
             && id < |lane.requests|
             && (lane.requests[id].canceller == Interrupting || lane.requests[id].canceller == Acknowledging)
    ensures Step(After(EMPTY_LANE, events), e).lock == Some(id)
  {
    RunKeeps(EMPTY_LANE, events);
    var lane := After(EMPTY_LANE, events);
    assert RequestInv(lane.requests[id]);
    assert lane.lock == Some(id);
    match e {
      case Work(other) =>
        assert RequestInv(lane.requests[other]);
        assert HoldsLock(lane.requests[other].worker) <==> other == id;
      case _ =>
    }
  }

  /** Closures run one at a time, each while its request holds the connection. */
  lemma ClosuresExclude(events: seq<Event>, i: nat, j: nat)
    requires CanRun(EMPTY_LANE, events)
    requires var lane := After(EMPTY_LANE, events);
             && i < |lane.requests| && j < |lane.requests|
             && lane.requests[i].worker == Executing && lane.requests[j].worker == Executing
    ensures i == j && After(EMPTY_LANE, events).lock == Some(i)
  {
    RunKeeps(EMPTY_LANE, events);
    var lane := After(EMPTY_LANE, events);
    assert HoldsLock(lane.requests[i].worker) && HoldsLock(lane.requests[j].worker);
  }

  /** What a whole run may say about one request. */
  lemma HistoryOf(events: seq<Event>, id: nat)
    requires CanRun(EMPTY_LANE, events) && id < |After(EMPTY_LANE, events).requests|
    ensures var r := After(EMPTY_LANE, events).requests[id];
            && r.interrupts <= 1
            && r.loads <= 3
            && (r.cancelledInQueue ==> !r.ran && r.interrupts == 0)
            && (r.phase == Finished ==> r.interrupts == 0)
  {
    RunKeeps(EMPTY_LANE, events);
    assert RequestInv(After(EMPTY_LANE, events).requests[id]);
  }

  /**
   * In every run the closure of a request that finished has run, and a request that is gone without
   * having run was cancelled; one whose future was not dropped is gone only when it has run.
   */
  lemma RunsUnlessCancelled(events: seq<Event>, id: nat)
    requires CanRun(EMPTY_LANE, events) && id < |After(EMPTY_LANE, events).requests|
    ensures var r := After(EMPTY_LANE, events).requests[id];
            && (r.phase == Finished ==> r.ran)
            && (r.worker == Gone && !r.ran ==> r.phase == Cancelled && r.canceller != Armed)
            && (r.worker == Gone && r.canceller == Armed ==> r.ran && r.phase == Finished)
  {
    RunKeeps(EMPTY_LANE, events);
    assert RequestInv(After(EMPTY_LANE, events).requests[id]);
  }

  /** Once a drop is over, its request has finished, was taken out of the queue, or was interrupted, once. */
  lemma DropCancels(events: seq<Event>, id: nat)
    requires CanRun(EMPTY_LANE, events) && id < |After(EMPTY_LANE, events).requests|
    requires After(EMPTY_LANE, events).requests[id].canceller == Returned
    ensures var r := After(EMPTY_LANE, events).requests[id];
            || (r.phase == Finished && r.interrupts == 0)
            || (r.phase == Cancelled && r.cancelledInQueue && r.interrupts == 0)
            || (r.phase == Cancelled && !r.cancelledInQueue && r.interrupts == 1)
  {
    RunKeeps(EMPTY_LANE, events);
    assert RequestInv(After(EMPTY_LANE, events).requests[id]);
  }

  /** No step starts the closure of a request that was cancelled before, or that does not hold the connection. */
  lemma NeverStartsCancelled(events: seq<Event>, e: Event, id: nat)
    requires CanRun(EMPTY_LANE, events) && Enabled(After(EMPTY_LANE, events), e)
    requires var lane := After(EMPTY_LANE, events);
             id < |lane.requests| && !lane.requests[id].ran && Step(lane, e).requests[id].ran
    ensures var lane := After(EMPTY_LANE, events);
            && e == Work(id) && lane.requests[id].phase == Running && lane.lock == Some(id)
            && Step(lane, e).requests[id].worker == Executing
  {
    RunKeeps(EMPTY_LANE, events);
    assert RequestInv(After(EMPTY_LANE, events).requests[id]);
  }

  // ---- Progress ------------------------------------------------------------

  lemma RunCons(lane: Lane, e: Event, rest: seq<Event>)
    requires Enabled(lane, e) && CanRun(Step(lane, e), rest)
    ensures CanRun(lane, [e] + rest) && After(lane, [e] + rest) == After(Step(lane, e), rest)
  {
    assert ([e] + rest)[1..] == rest;
  }

  /** `n` steps of one worker. */
  function Works(id: nat, n: nat): seq<Event> {
    seq(n, i => Work(id))
  }

  lemma WorksCons(lane: Lane, id: nat, n: nat)
    requires n > 0 && Enabled(lane, Work(id)) && CanRun(Step(lane, Work(id)), Works(id, n - 1))
    ensures CanRun(lane, Works(id, n)) && After(lane, Works(id, n)) == After(Step(lane, Work(id)), Works(id, n - 1))
  {
    RunCons(lane, Work(id), Works(id, n - 1));
    assert [Work(id)] + Works(id, n - 1) == Works(id, n);
  }

  /** The last request, held by its worker, and the connection its own or nobody's. */
  function Last(lane: Lane, r: Request, lock: Option<nat>): Lane {
    Lane(lane.requests + [r], lock)
  }

  lemma StepOfLast(lane: Lane, r: Request, lock: Option<nat>)
    requires r.worker != Asleep && r.worker != Gone && (r.worker == WaitingForLock ==> lock == None)
    ensures var id := |lane.requests|;
            && Enabled(Last(lane, r, lock), Work(id))
            && Step(Last(lane, r, lock), Work(id)) ==
                 Last(lane, WorkStep(r), if r.worker == WaitingForLock then Some(id)
                                         else if r.worker == Releasing then None else lock)
  {
    var id := |lane.requests|;
    assert (lane.requests + [r])[id := WorkStep(r)] == lane.requests + [WorkStep(r)];
  }

  /**
   * A request that comes when the connection is free, and that nothing disturbs, is served: it is
   * added to the others, its closure runs, and it gives the connection back.
   */
  lemma UndisturbedIsServed(lane: Lane)
    requires lane.lock == None
    ensures var id := |lane.requests|;
            var done := NEW_REQUEST.(phase := Finished, worker := Gone, ran := true);
            && CanRun(lane, [Submit] + Works(id, 6))
            && After(lane, [Submit] + Works(id, 6)) == Lane(lane.requests + [done], None)
  {
    var id := |lane.requests|;
    var r0 := NEW_REQUEST;
    var r1 := r0.(worker := Claiming);
    var r2 := r0.(phase := Running, worker := Checking);
    var r3 := r2.(worker := Executing, ran := true);
    var r4 := r3.(worker := Finishing);
    var r5 := r4.(phase := Finished, worker := Releasing);
    StepOfLast(lane, r0, None);
    StepOfLast(lane, r1, Some(id));
    StepOfLast(lane, r2, Some(id));
    StepOfLast(lane, r3, Some(id));
    StepOfLast(lane, r4, Some(id));
    StepOfLast(lane, r5, Some(id));
    assert Works(id, 0) == [];
    WorksCons(Last(lane, r5, Some(id)), id, 1);
    WorksCons(Last(lane, r4, Some(id)), id, 2);
    WorksCons(Last(lane, r3, Some(id)), id, 3);
    WorksCons(Last(lane, r2, Some(id)), id, 4);
    WorksCons(Last(lane, r1, Some(id)), id, 5);
    WorksCons(Last(lane, r0, None), id, 6);
    RunCons(lane, Submit, Works(id, 6));
  }

  /** A request that is dropped while it waits is cancelled in the queue by three steps of its canceller. */
  lemma DroppedInQueue(lane: Lane)
    ensures var id := |lane.requests|;
            var events := [Submit, Cancel(id), Cancel(id), Cancel(id)];
            var done := NEW_REQUEST.(phase := Cancelled, canceller := Returned, cancelledInQueue := true, loads := 1);
            CanRun(lane, events) && After(lane, events) == Lane(lane.requests + [done], lane.lock)
  {
    var id := |lane.requests|;
    var r0 := NEW_REQUEST;
    var r1 := r0.(canceller := Loading);
    var r2 := r0.(canceller := Swapping(Queued), loads := 1);
    var r3 := r2.(phase := Cancelled, canceller := Returned, cancelledInQueue := true);
    CancelOfLast(lane, r0);
    CancelOfLast(lane, r1);
    CancelOfLast(lane, r2);
    var c := [Cancel(id)];
    RunCons(Last(lane, r2, lane.lock), Cancel(id), []);
    RunCons(Last(lane, r1, lane.lock), Cancel(id), c);
    RunCons(Last(lane, r0, lane.lock), Cancel(id), c + c);
    RunCons(lane, Submit, c + (c + c));
    assert [Submit] + (c + (c + c)) == [Submit, Cancel(id), Cancel(id), Cancel(id)];
  }

  lemma CancelOfLast(lane: Lane, r: Request)
    requires r.canceller != Returned
    ensures var id := |lane.requests|;
            && Enabled(Last(lane, r, lane.lock), Cancel(id))
            && Step(Last(lane, r, lane.lock), Cancel(id)) == Last(lane, CancelStep(r), lane.lock)
  {
    var id := |lane.requests|;
    assert (lane.requests + [r])[id := CancelStep(r)] == lane.requests + [CancelStep(r)];
  }

  /** The steps that bring the acknowledgement and let the owner go on. */
  function Rescue(lane: Lane, id: nat): seq<Event>
    requires id < |lane.requests|
  {
    (if lane.requests[id].canceller == Interrupting then [Cancel(id)] else []) + [Cancel(id), Work(id)]
  }

  /**
   * An owner stuck in `finish`, testing the flag or asleep, has a canceller whose next steps
   * deliver the acknowledgement and leave the owner ready to release the connection.
   */
  lemma StuckOwnerIsReleased(events: seq<Event>, id: nat)
    requires CanRun(EMPTY_LANE, events) && id < |After(EMPTY_LANE, events).requests|
    requires var r := After(EMPTY_LANE, events).requests[id];
             r.worker == Asleep || (r.worker == AwaitingAck && !r.delivered)
    ensures var lane := After(EMPTY_LANE, events);
            && CanRun(lane, Rescue(lane, id))
            && id < |After(lane, Rescue(lane, id)).requests|
            && After(lane, Rescue(lane, id)).requests[id].worker == Releasing
  {
    RunKeeps(EMPTY_LANE, events);
    var lane := After(EMPTY_LANE, events);
    assert RequestInv(lane.requests[id]);
    if lane.requests[id].canceller == Interrupting {
      AckReleases(Step(lane, Cancel(id)), id);
      RunCons(lane, Cancel(id), [Cancel(id), Work(id)]);
      assert Rescue(lane, id) == [Cancel(id)] + [Cancel(id), Work(id)];
    } else {
      AckReleases(lane, id);
      assert Rescue(lane, id) == [Cancel(id), Work(id)];
    }
  }

  lemma AckReleases(lane: Lane, id: nat)
    requires id < |lane.requests| && lane.requests[id].canceller == Acknowledging
    requires lane.requests[id].worker == Asleep || lane.requests[id].worker == AwaitingAck
    ensures CanRun(lane, [Cancel(id), Work(id)]) && id < |After(lane, [Cancel(id), Work(id)]).requests|
    ensures After(lane, [Cancel(id), Work(id)]).requests[id].worker == Releasing
  {
    var acked := Step(lane, Cancel(id));
    RunCons(acked, Work(id), []);
    assert [Work(id)] + [] == [Work(id)];
    RunCons(lane, Cancel(id), [Work(id)]);
    assert [Cancel(id)] + [Work(id)] == [Cancel(id), Work(id)];
  }

  /** A canceller that has begun and not yet returned. */
  predicate Cancelling(r: Request) {
    r.canceller != Armed && r.canceller != Returned
  }

  /** A step of a worker, or of a canceller that has already begun. */
  predicate CanAdvance(lane: Lane, e: Event) {
    Enabled(lane, e) && (e.Work? || (e.Cancel? && Cancelling(lane.requests[e.id])))
  }

  /**
   * The lane never deadlocks, even if no further future is ever dropped: while some worker is not
   * gone, a worker or a canceller already under way can step.
   */
  lemma NoDeadlock(events: seq<Event>, i: nat)
    requires CanRun(EMPTY_LANE, events)
    requires i < |After(EMPTY_LANE, events).requests| && After(EMPTY_LANE, events).requests[i].worker != Gone
    ensures exists e: Event :: CanAdvance(After(EMPTY_LANE, events), e)
  {
    RunKeeps(EMPTY_LANE, events);
    var lane := After(EMPTY_LANE, events);
    var holder := if lane.lock.Some? then lane.lock.value else i;
    assert RequestInv(lane.requests[holder]) && RequestInv(lane.requests[i]);
    assert HoldsLock(lane.requests[i].worker) <==> lane.lock == Some(i);
    assert HoldsLock(lane.requests[holder].worker) <==> lane.lock == Some(holder);
    if lane.requests[holder].worker == Asleep {
      assert Cancelling(lane.requests[holder]);
      assert CanAdvance(lane, Cancel(holder));
    } else {
      assert CanAdvance(lane, Work(holder));
    }
  }

  /** So a lane that has come to rest has served every request: each is gone, and has run or was cancelled. */
  lemma RestMeansServed(events: seq<Event>, i: nat)
    requires CanRun(EMPTY_LANE, events) && i < |After(EMPTY_LANE, events).requests|
    requires forall e: Event :: !CanAdvance(After(EMPTY_LANE, events), e)
    ensures var r := After(EMPTY_LANE, events).requests[i];
            r.worker == Gone && (r.ran || (r.phase == Cancelled && r.canceller != Armed))
  {
    RunsUnlessCancelled(events, i);
    if After(EMPTY_LANE, events).requests[i].worker != Gone {
      NoDeadlock(events, i);
    }
  }

  /** How many steps a request can still take, weighing each by what it may set off. */
  function WorkerLeft(r: Request): nat {
    match r.worker
    case WaitingForLock => 8
    case Claiming => 7
    case Checking => 6
    case Executing => 5
    case Finishing => 4
    case AwaitingAck => 3
    case Asleep => 2
    case Releasing => 1
    case Gone => 0
  }

  function CancellerLeft(r: Request): nat {
    match r.canceller
    case Armed => 11
    case Loading => 10 - 2 * r.phase.Rank()
    case Swapping(seen) => 9 - 2 * seen.Rank()
    case Interrupting => 4
    case Acknowledging => 3
    case Returned => 0
  }

  function StepsLeft(r: Request): nat {
    WorkerLeft(r) + CancellerLeft(r)
  }

  function Left(requests: seq<Request>): nat {
    if requests == [] then 0
    else StepsLeft(requests[0]) + Left(requests[1..])
  }

  lemma {:induction false} LeftChange(requests: seq<Request>, i: nat, r: Request)
    requires i < |requests|
    ensures Left(requests[i := r]) - Left(requests) == StepsLeft(r) - StepsLeft(requests[i])
  {
    if i == 0 {
      assert requests[i := r][1..] == requests[1..];
    } else {
      assert requests[i := r][1..] == requests[1..][i - 1 := r];
      LeftChange(requests[1..], i - 1, r);
    }
  }

  lemma WorkUsesUp(r: Request)
    requires RequestInv(r) && r.worker != Asleep && r.worker != Gone
    ensures StepsLeft(WorkStep(r)) < StepsLeft(r)
  {
  }

  lemma CancelUsesUp(r: Request)
    requires RequestInv(r) && r.canceller != Returned
    ensures StepsLeft(CancelStep(r)) < StepsLeft(r)
  {
  }

  /** Every step of a worker or a canceller uses up some of what is left. */
  lemma StepsUseUp(lane: Lane, e: Event)
    requires LaneInv(lane) && Enabled(lane, e) && (e.Work? || e.Cancel?)
    ensures Left(Step(lane, e).requests) < Left(lane.requests)
  {
    var id := e.id;
    var r := lane.requests[id];
    assert RequestInv(r);
    if e.Work? {
      WorkUsesUp(r);
      LeftChange(lane.requests, id, WorkStep(r));
    } else {
      CancelUsesUp(r);
      LeftChange(lane.requests, id, CancelStep(r));
    }
  }

  function SpuriousWakes(events: seq<Event>): nat {
    if events == [] then 0 else (if events[0].SpuriousWake? then 1 else 0) + SpuriousWakes(events[1..])
  }

  /** A spurious wake lets the owner test the flag once more. */
  lemma WakeAddsOne(lane: Lane, id: nat)
    requires Enabled(lane, SpuriousWake(id))
    ensures Left(Step(lane, SpuriousWake(id)).requests) == Left(lane.requests) + 1
  {
    LeftChange(lane.requests, id, lane.requests[id].(worker := AwaitingAck));
  }

  /**
   * Once no more requests arrive, the lane runs dry: no schedule is longer than what is left and
   * two steps for each spurious wake, so with `NoDeadlock` every request is served or skipped.
   */
  lemma {:induction false} SchedulesAreFinite(lane: Lane, events: seq<Event>)
    requires LaneInv(lane) && CanRun(lane, events)
    requires forall i :: 0 <= i < |events| ==> !events[i].Submit?
    ensures |events| + Left(After(lane, events).requests) <= Left(lane.requests) + 2 * SpuriousWakes(events)
    decreases |events|
  {
    if events != [] {
      if events[0].SpuriousWake? {
        WakeAddsOne(lane, events[0].id);
      } else {
        StepsUseUp(lane, events[0]);
      }
      StepKeeps(lane, events[0]);
      SchedulesAreFinite(Step(lane, events[0]), events[1..]);
    }
  }
}
