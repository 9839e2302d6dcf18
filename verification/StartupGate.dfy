/**
 * The one-shot startup gate (crates/daemon/src/startup_gate.rs) as interleaved atomic steps of
 * any number of firers and waiters.
 */
module StartupGate {
  datatype Firer =
    | BeforeSwap
    | BeforeNotify  // the swap found the flag clear; about to wake the registered waiters
    | Fired

  datatype Waiter =
    | FirstLook
    | Registering   // the flag was clear; about to enable the notification
    | SecondLook
    | Waiting       // the select: a notification or the timeout
    | Released

  /** A waiter and whether the notification it enabled has been delivered. */
  datatype WaiterState = WaiterState(at: Waiter, registered: bool, notified: bool, timedOut: bool)

  datatype Gate = Gate(fired: bool, firers: seq<Firer>, waiters: seq<WaiterState>)

  /** A gate that is armed, and one that starts out released. */
  const NEW_GATE := Gate(false, [], [])
  const FIRED_GATE := Gate(true, [], [])

  datatype Event =
    | CallFire
    | CallWait
    | Fire(f: nat)
    | Wait(w: nat)
    | Timeout(w: nat)

  predicate Enabled(g: Gate, e: Event) {
    match e
    case CallFire => true
    case CallWait => true
    case Fire(f) => f < |g.firers| && g.firers[f] != Fired
    case Wait(w) => w < |g.waiters| && g.waiters[w].at != Released
      && (g.waiters[w].at == Waiting ==> g.waiters[w].notified)
    case Timeout(w) => w < |g.waiters| && g.waiters[w].at == Waiting
  }

  /** `notify_waiters`: everyone registered by now is woken. */
  function NotifyAll(ws: seq<WaiterState>): (r: seq<WaiterState>)
    ensures |r| == |ws|
    ensures forall i :: 0 <= i < |ws| ==> r[i] == ws[i].(notified := ws[i].notified || ws[i].registered)
  {
    seq(|ws|, i requires 0 <= i < |ws| => ws[i].(notified := ws[i].notified || ws[i].registered))
  }

  function WaitStep(w: WaiterState, fired: bool): WaiterState {
    match w.at
    case FirstLook => if fired then w.(at := Released) else w.(at := Registering)
    case Registering => w.(at := SecondLook, registered := true)
    case SecondLook => if fired then w.(at := Released) else w.(at := Waiting)
    case Waiting => w.(at := Released)
    case Released => w
  }

  function Step(g: Gate, e: Event): Gate
    requires Enabled(g, e)
  {
    match e
    case CallFire => g.(firers := g.firers + [BeforeSwap])
    case CallWait => g.(waiters := g.waiters + [WaiterState(FirstLook, false, false, false)])
    case Fire(f) =>
      if g.firers[f] == BeforeSwap then
        g.(fired := true, firers := g.firers[f := if g.fired then Fired else BeforeNotify])
      else
        g.(firers := g.firers[f := Fired], waiters := NotifyAll(g.waiters))
    case Wait(w) => g.(waiters := g.waiters[w := WaitStep(g.waiters[w], g.fired)])
    case Timeout(w) => g.(waiters := g.waiters[w := g.waiters[w].(at := Released, timedOut := true)])
  }

  predicate CanRun(g: Gate, events: seq<Event>)
    decreases |events|
  {
    events == [] || (Enabled(g, events[0]) && CanRun(Step(g, events[0]), events[1..]))
  }

  function After(g: Gate, events: seq<Event>): Gate
    requires CanRun(g, events)
    decreases |events|
  {
    if events == [] then g else After(Step(g, events[0]), events[1..])
  }

  /** Some firer has set the flag and not yet woken the waiters. */
  predicate NotifyPending(g: Gate) {
    exists f :: 0 <= f < |g.firers| && g.firers[f] == BeforeNotify
  }

  predicate GateInv(g: Gate) {
    && (forall f, h :: 0 <= f < h < |g.firers| ==> !(g.firers[f] == BeforeNotify && g.firers[h] == BeforeNotify))
    && (NotifyPending(g) ==> g.fired)
    && (forall w :: 0 <= w < |g.waiters| ==>
          && (g.waiters[w].at == SecondLook || g.waiters[w].at == Waiting ==> g.waiters[w].registered)
          && (g.waiters[w].at == Waiting && !g.waiters[w].notified && g.fired ==> NotifyPending(g))
          && (g.waiters[w].notified ==> g.fired)
          && (g.waiters[w].at == Released && !g.waiters[w].timedOut ==> g.fired))
  }

  lemma FireKeeps(g: Gate, f: nat)
    requires GateInv(g) && Enabled(g, Fire(f))
    ensures GateInv(Step(g, Fire(f)))
  {
    var g' := Step(g, Fire(f));
    if g.firers[f] == BeforeSwap {
      if g.fired {
        if h :| 0 <= h < |g.firers| && g.firers[h] == BeforeNotify {
          assert g'.firers[h] == BeforeNotify;
        }
      } else {
        assert forall h :: 0 <= h < |g.firers| ==> g.firers[h] != BeforeNotify;
        assert g'.firers[f] == BeforeNotify;
      }
    }
  }

  lemma StepKeeps(g: Gate, e: Event)
    requires GateInv(g) && Enabled(g, e)
    ensures GateInv(Step(g, e))
    ensures g.fired ==> Step(g, e).fired
  {
    match e {
      case Fire(f) => FireKeeps(g, f);
      case CallFire =>
        var g' := Step(g, e);
        if h :| 0 <= h < |g.firers| && g.firers[h] == BeforeNotify {
          assert g'.firers[h] == BeforeNotify;
        }
      case _ =>
        assert Step(g, e).firers == g.firers;
    }
  }

  lemma {:induction false} RunKeeps(g: Gate, events: seq<Event>)
    requires GateInv(g) && CanRun(g, events)
    ensures GateInv(After(g, events))
    ensures g.fired ==> After(g, events).fired
    decreases |events|
  {
    if events != [] {
      StepKeeps(g, events[0]);
      RunKeeps(Step(g, events[0]), events[1..]);
    }
  }

  /** The flag never resets, on any run from either kind of gate. */
  lemma FlagNeverResets(start: Gate, events: seq<Event>, more: seq<Event>)
    requires start == NEW_GATE || start == FIRED_GATE
    requires CanRun(start, events) && CanRun(After(start, events), more)
    ensures After(start, events).fired ==> After(After(start, events), more).fired
  {
    RunKeeps(start, events);
    RunKeeps(After(start, events), more);
  }

  /**
   * No wakeup is lost: if a waiter is still waiting, not notified, while the flag is set, then
   * the first firer has yet to run its notify step, and that step wakes the waiter.
   */
  lemma NoLostWakeup(start: Gate, events: seq<Event>, w: nat)
    requires start == NEW_GATE || start == FIRED_GATE
    requires CanRun(start, events)
    requires var g := After(start, events);
             w < |g.waiters| && g.waiters[w].at == Waiting && !g.waiters[w].notified && g.fired
    ensures exists f: nat :: Enabled(After(start, events), Fire(f))
              && After(start, events).firers[f] == BeforeNotify
              && Step(After(start, events), Fire(f)).waiters[w].notified
  {
    RunKeeps(start, events);
    var g := After(start, events);
    var f :| 0 <= f < |g.firers| && g.firers[f] == BeforeNotify;
    assert Enabled(g, Fire(f));
    assert Step(g, Fire(f)).waiters[w].notified;
  }

  /** Nobody is let through early: leaving without a timeout means the gate was fired. */
  lemma ReleasedMeansFired(start: Gate, events: seq<Event>, w: nat)
    requires start == NEW_GATE || start == FIRED_GATE
    requires CanRun(start, events)
    requires var g := After(start, events); w < |g.waiters| && g.waiters[w].at == Released && !g.waiters[w].timedOut
    ensures After(start, events).fired
  {
    RunKeeps(start, events);
  }

  /** On a gate that starts out released nobody ever waits. */
  lemma {:induction false} FiredGateNeverBlocks(g: Gate, events: seq<Event>)
    requires g.fired && CanRun(g, events)
    requires forall w :: 0 <= w < |g.waiters| ==> g.waiters[w].at == FirstLook || g.waiters[w].at == Released
    ensures forall w :: 0 <= w < |After(g, events).waiters| ==>
              After(g, events).waiters[w].at == FirstLook || After(g, events).waiters[w].at == Released
    decreases |events|
  {
    if events != [] {
      FiredGateNeverBlocks(Step(g, events[0]), events[1..]);
    }
  }

  /** A waiter that waits can always time out, and is then released as timed out; no other is touched. */
  lemma TimeoutReleases(g: Gate, w: nat)
    requires w < |g.waiters| && g.waiters[w].at == Waiting
    ensures Enabled(g, Timeout(w))
    ensures var next := Step(g, Timeout(w));
            && |next.waiters| == |g.waiters| && next.waiters[w].at == Released && next.waiters[w].timedOut
            && (forall v :: 0 <= v < |g.waiters| && v != w ==> next.waiters[v] == g.waiters[v])
            && next.fired == g.fired && next.firers == g.firers
  {
  }

  lemma RunCons(g: Gate, e: Event, rest: seq<Event>)
    requires Enabled(g, e) && CanRun(Step(g, e), rest)
    ensures CanRun(g, [e] + rest) && After(g, [e] + rest) == After(Step(g, e), rest)
  {
    assert ([e] + rest)[1..] == rest;
  }

  /** What a waiter has left to do once the flag is set: two steps if it is about to register, one if not. */
  function WayOut(g: Gate, w: nat): seq<Event>
    requires w < |g.waiters|
  {
    if g.waiters[w].at == Registering then [Wait(w), Wait(w)] else [Wait(w)]
  }

  /** Once the flag is set and the first firer has notified, every waiter gets out without the timeout. */
  lemma EveryWaiterIsFree(start: Gate, events: seq<Event>, w: nat)
    requires start == NEW_GATE || start == FIRED_GATE
    requires CanRun(start, events)
    requires var g := After(start, events);
             w < |g.waiters| && g.fired && !NotifyPending(g) && g.waiters[w].at != Released
    ensures var g := After(start, events);
            && CanRun(g, WayOut(g, w))
            && var out := After(g, WayOut(g, w)).waiters;
            && w < |out| && out[w].at == Released && out[w].timedOut == g.waiters[w].timedOut
  {
    RunKeeps(start, events);
    var g := After(start, events);
    var next := Step(g, Wait(w));
    if g.waiters[w].at == Registering {
      RunCons(next, Wait(w), []);
      RunCons(g, Wait(w), [Wait(w)]);
      assert WayOut(g, w) == [Wait(w)] + [Wait(w)];
    } else {
      RunCons(g, Wait(w), []);
    }
  }

  /**
   * Firing releases: whatever has happened before, the steps of one more call to fire set the flag
   * and leave no waiter without a way out.
   */
  lemma FiringReleases(start: Gate, events: seq<Event>)
    requires start == NEW_GATE && CanRun(start, events)
    ensures var g := After(start, events);
            var f := |g.firers|;
            && CanRun(g, [CallFire, Fire(f)]) && After(g, [CallFire, Fire(f)]).fired
            && (!g.fired ==>
                  && CanRun(g, [CallFire, Fire(f), Fire(f)])
                  && var end := After(g, [CallFire, Fire(f), Fire(f)]);
                  && end.fired && !NotifyPending(end)
                  && |end.waiters| == |g.waiters|
                  && forall w :: 0 <= w < |g.waiters| && g.waiters[w].at == Waiting ==> Enabled(end, Wait(w)))
  {
    RunKeeps(start, events);
    var g := After(start, events);
    var f := |g.firers|;
    var called := Step(g, CallFire);
    var swapped := Step(called, Fire(f));
    RunCons(called, Fire(f), []);
    RunCons(g, CallFire, [Fire(f)]);
    assert [CallFire] + [Fire(f)] == [CallFire, Fire(f)];
    if !g.fired {
      assert forall h :: 0 <= h < f ==> g.firers[h] != BeforeNotify;
      RunCons(swapped, Fire(f), []);
      RunCons(called, Fire(f), [Fire(f)]);
      RunCons(g, CallFire, [Fire(f)] + [Fire(f)]);
      assert [CallFire] + ([Fire(f)] + [Fire(f)]) == [CallFire, Fire(f), Fire(f)];
    }
  }

  /** A call to wait on a released gate is over after its first look; on an armed one it waits after its third. */
  lemma CallsWait(g: Gate)
    ensures var w := |g.waiters|;
            var looks := if g.fired then [Wait(w)] else [Wait(w), Wait(w), Wait(w)];
            && CanRun(g, [CallWait] + looks)
            && var end := After(g, [CallWait] + looks);
            && end.waiters == g.waiters + [WaiterState(if g.fired then Released else Waiting, !g.fired, false, false)]
            && end.fired == g.fired && end.firers == g.firers
  {
    var w := |g.waiters|;
    var w0 := WaiterState(FirstLook, false, false, false);
    LookOfLast(g, w0);
    if g.fired {
      RunCons(Called(g, w0), Wait(w), []);
      RunCons(g, CallWait, [Wait(w)]);
    } else {
      var w1 := w0.(at := Registering);
      var w2 := w0.(at := SecondLook, registered := true);
      LookOfLast(g, w1);
      LookOfLast(g, w2);
      RunCons(Called(g, w2), Wait(w), []);
      RunCons(Called(g, w1), Wait(w), [Wait(w)]);
      RunCons(Called(g, w0), Wait(w), [Wait(w)] + [Wait(w)]);
      RunCons(g, CallWait, [Wait(w)] + ([Wait(w)] + [Wait(w)]));
      assert [Wait(w)] + ([Wait(w)] + [Wait(w)]) == [Wait(w), Wait(w), Wait(w)];
    }
  }

  function Called(g: Gate, w: WaiterState): Gate {
    g.(waiters := g.waiters + [w])
  }

  lemma LookOfLast(g: Gate, w: WaiterState)
    requires w.at != Released && w.at != Waiting
    ensures Enabled(Called(g, w), Wait(|g.waiters|))
    ensures Step(Called(g, w), Wait(|g.waiters|)) == Called(g, WaitStep(w, g.fired))
  {
    assert (g.waiters + [w])[|g.waiters| := WaitStep(w, g.fired)] == g.waiters + [WaitStep(w, g.fired)];
  }
}
