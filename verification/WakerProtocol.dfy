/** The shared-waker protocol between the two halves of one TLS stream and the Tokio reactor.

    A TLS read can need write readiness and a TLS write can need read readiness, but Tokio keeps a
    single waker per socket direction. Both halves therefore park behind one shared waker, whose
    `wake` drains two slots. Polls are serialised (they need `&mut` on the stream); the reactor runs
    concurrently, and every access to a mutex or to Tokio's readiness word is one atomic step here. */
module WakerProtocol {
  import opened Basics
  import opened Waiters

  /** One value per half, or one per direction. */
  datatype Pair<T> = Pair(write: T, read: T) {
    function At(r: bool): T { if r then read else write }
    function With(r: bool, v: T): Pair<T> { if r then this.(read := v) else this.(write := v) }
  }

  /** A half of the stream as its own polls left it: the waker of its latest poll, every direction on
      which that poll has found nothing ready so far (`true` is the read direction), and whether it
      returned `Pending`. A read that could not flush goes on to wait on a second direction, so there
      can be two. */
  datatype Task = Task(waker: Waker, waits: set<bool>, parked: bool)

  /** Where the poll in progress stands. `half` is `true` for the reader. */
  datatype Pc =
    | Free
    | Running(half: bool)
    | Registered(half: bool, dir: bool)
    | SawReady(half: bool, dir: bool)
    | Blocked(half: bool, dir: bool)

  /** What only the polls themselves change. */
  datatype Poller = Poller(pc: Pc, tasks: Pair<Task>)

  datatype State = State(
    poller: Poller,
    slots: Pair<Option<Waker>>,  // IoWaiters, by half
    ready: Pair<bool>,           // Tokio's cached readiness bit, by direction
    armed: Pair<bool>,           // the shared waker is registered on this direction
    waking: Pair<bool>,          // an event has set the bit; the direction's waker is not taken yet
    notifies: nat,               // shared wakers taken by the reactor whose `notify` has not locked yet
    flight: multiset<Waker>,     // wakers drained from the slots, `wake` not called yet
    woken: Pair<bool>)           // the waker of this half's latest poll was woken since it began
  {
    function Task(h: bool): Task { poller.tasks.At(h) }
  }

  datatype Step =
    // the poll in progress
    | Begin(half: bool, waker: Waker)
    | SslCall
    | PollerNotify
    | Want(dir: bool)
    | FindNothing
    | FindReady
    | ClearReady
    | CheckFailed
    | Park
    | Finish
    // the reactor, and wakers in flight
    | Event(dir: bool)
    | TakeWaker(dir: bool)
    | Notify
    | Wake(waker: Waker)

  predicate ByReactor(step: Step) {
    step.Event? || step.TakeWaker? || step.Notify? || step.Wake?
  }

  const NEVER_POLLED := Poller(Free, Pair(Task(0, {}, false), Task(0, {}, false)))

  predicate Init(s: State) {
    && s.poller == NEVER_POLLED
    && s.slots == Pair(None, None)
    && s.armed == Pair(false, false)
    && s.waking == Pair(false, false)
    && s.notifies == 0
    && s.flight == multiset{}
  }

  /** May the polls do this next? The reactor is always free to act. */
  predicate PollerMay(p: Poller, step: Step) {
    match step
    case Begin(_, _) => p.pc.Free?
    // `poll_read` carries on after a flush that found nothing ready
    case SslCall | PollerNotify => p.pc.Running? || p.pc.Blocked?
    case Want(_) | Finish => p.pc.Running?
    case FindNothing | FindReady | CheckFailed => p.pc.Registered?
    case ClearReady => p.pc.SawReady?
    case Park => p.pc.Blocked?
    case _ => true
  }

  /** Can it happen now? A check finds what the readiness bit says; the reactor needs work to do. */
  predicate WorldAllows(s: State, step: Step) {
    match step
    case FindNothing => s.poller.pc.Registered? ==> !s.ready.At(s.poller.pc.dir)
    case FindReady => s.poller.pc.Registered? ==> s.ready.At(s.poller.pc.dir)
    case TakeWaker(d) => s.waking.At(d)
    case Notify => s.notifies > 0
    case Wake(w) => w in s.flight
    case _ => true
  }

  predicate Enabled(s: State, step: Step) {
    PollerMay(s.poller, step) && WorldAllows(s, step)
  }

  function Move(p: Poller, step: Step): Poller
    requires PollerMay(p, step)
  {
    match step
    case Begin(h, w) => Poller(Running(h), p.tasks.With(h, Task(w, {}, false)))
    case SslCall | PollerNotify | CheckFailed | ClearReady => p.(pc := Running(p.pc.half))
    case Want(d) => p.(pc := Registered(p.pc.half, d))
    case FindReady => p.(pc := SawReady(p.pc.half, p.pc.dir))
    case FindNothing =>
      var h, d := p.pc.half, p.pc.dir;
      Poller(Blocked(h, d), p.tasks.With(h, p.tasks.At(h).(waits := p.tasks.At(h).waits + {d})))
    case Park =>
      var h := p.pc.half;
      Poller(Free, p.tasks.With(h, p.tasks.At(h).(parked := true)))
    case Finish => p.(pc := Free)
    case _ => p
  }

  /** `IoWaiters::notify` up to the unlock: both slots are taken at once. */
  function Drain(s: State): State {
    s.(slots := Pair(None, None),
       flight := s.flight + Occupant(s.slots.write) + Occupant(s.slots.read))
  }

  function Occupant(slot: Option<Waker>): multiset<Waker> {
    if slot.None? then multiset{} else multiset{slot.value}
  }

  /** The rest of the state: slots, readiness, registrations, and wake-ups on their way. */
  function React(s: State, step: Step): State
    requires Enabled(s, step)
  {
    var p := s.poller;
    match step
    case Begin(h, _) => s.(woken := s.woken.With(h, false))
    case PollerNotify => Drain(s)
    case Want(_) =>
      // `poll_ssl_ready` registers the caller's waker before it asks for readiness.
      var h := p.pc.half;
      s.(slots := s.slots.With(h, RegisterSlot(s.slots.At(h), s.Task(h).waker)))
    case FindNothing => s.(armed := s.armed.With(p.pc.dir, true))
    case ClearReady => s.(ready := s.ready.With(p.pc.dir, false))
    case Event(d) =>
      s.(ready := s.ready.With(d, true), waking := s.waking.With(d, true))
    case TakeWaker(d) =>
      var t := s.(waking := s.waking.With(d, false), armed := s.armed.With(d, false));
      if s.armed.At(d) then t.(notifies := s.notifies + 1) else t
    case Notify => Drain(s).(notifies := s.notifies - 1)
    case Wake(w) =>
      s.(flight := s.flight - multiset{w},
         woken := Pair(s.woken.write || s.Task(false).waker == w, s.woken.read || s.Task(true).waker == w))
    case _ => s
  }

  /** One atomic step of the poller or of the reactor. */
  function Apply(s: State, step: Step): State
    requires Enabled(s, step)
  {
    React(s, step).(poller := Move(s.poller, step))
  }

  /** The states visited by a schedule, one per prefix. */
  predicate IsRun(states: seq<State>, steps: seq<Step>) {
    && |states| == |steps| + 1
    && Init(states[0])
    && forall i | 0 <= i < |steps| :: Enabled(states[i], steps[i]) && states[i + 1] == Apply(states[i], steps[i])
  }

  /** Half `h` has already been woken since its latest poll began, or its wake-up is under way. */
  predicate WakeUnderWay(s: State, h: bool) {
    var w := s.Task(h).waker;
    s.woken.At(h) || w in s.flight || (s.slots.At(h) == Some(w) && s.notifies > 0)
  }

  /** Half `h` sits in its slot and the next event on `d` is bound to reach the shared waker. */
  predicate WillHear(s: State, h: bool, d: bool) {
    && s.slots.At(h) == Some(s.Task(h).waker)
    && s.armed.At(d)
    && (!s.ready.At(d) || s.waking.At(d))
  }

  predicate NotStranded(s: State, h: bool, d: bool) {
    WakeUnderWay(s, h) || WillHear(s, h, d)
  }

  /** The inductive invariant: a half is not stranded on any direction it has found not ready; between
      registration and the readiness check the waker is in the slot unless a notify has taken it. */
  predicate Inv(s: State) {
    && (forall h: bool, d: bool | d in s.Task(h).waits :: NotStranded(s, h, d))
    && (forall h: bool | s.Task(h).parked :: s.Task(h).waits != {})
    && (s.poller.pc.Registered? ==> InSlotOrUnderWay(s, s.poller.pc.half))
    && (s.poller.pc.Blocked? ==> s.poller.pc.dir in s.Task(s.poller.pc.half).waits)
  }

  /** Draining the slots can only move a half from its slot into the flight set. */
  lemma DrainKeeps(s: State, h: bool, d: bool, t: State)
    requires t.slots == Drain(s).slots && t.flight == Drain(s).flight
    requires t.woken == s.woken && t.poller.tasks == s.poller.tasks
    ensures NotStranded(s, h, d) ==> WakeUnderWay(t, h)
    ensures s.slots.At(h) == Some(s.Task(h).waker) ==> s.Task(h).waker in t.flight
  {
    if s.slots.At(h) == Some(s.Task(h).waker) {
      assert s.Task(h).waker in Occupant(s.slots.At(h));
    }
  }

  /** Waking one waker leaves every other waker in flight. */
  lemma WakeKeepsUnderWay(s: State, w: Waker, h: bool)
    requires w in s.flight && WakeUnderWay(s, h)
    ensures WakeUnderWay(Apply(s, Wake(w)), h)
  {
    var mine := s.Task(h).waker;
    assert mine != w ==> (s.flight - multiset{w})[mine] == s.flight[mine];
  }

  /** A wake-up under way stays under way until the half is polled again. */
  lemma StaysUnderWay(s: State, step: Step, h: bool)
    requires Enabled(s, step) && WakeUnderWay(s, h)
    requires !(step.Begin? && step.half == h)
    ensures WakeUnderWay(Apply(s, step), h)
  {
    if step.Wake? {
      WakeKeepsUnderWay(s, step.waker, h);
    } else if step.PollerNotify? || step.Notify? {
      DrainKeeps(s, h, true, Apply(s, step));
    }
  }

  /** A half that is not stranded stays so under every step but its own next poll: the poller only
      fills slots, arms directions and clears readiness bits, and the reactor moves a half along from
      armed, to notify pending, to in flight, to woken. */
  lemma StaysHeard(s: State, step: Step, h: bool, d: bool)
    requires Enabled(s, step) && NotStranded(s, h, d)
    requires !(step.Begin? && step.half == h)
    ensures NotStranded(Apply(s, step), h, d)
  {
    if WakeUnderWay(s, h) {
      StaysUnderWay(s, step, h);
    } else if step.PollerNotify? || step.Notify? {
      DrainKeeps(s, h, d, Apply(s, step));
    }
  }

  predicate InSlotOrUnderWay(s: State, h: bool) {
    WakeUnderWay(s, h) || s.slots.At(h) == Some(s.Task(h).waker)
  }

  lemma StaysInSlot(s: State, step: Step, h: bool)
    requires Enabled(s, step) && InSlotOrUnderWay(s, h)
    requires !(step.Begin? && step.half == h)
    ensures InSlotOrUnderWay(Apply(s, step), h)
  {
    if WakeUnderWay(s, h) {
      StaysUnderWay(s, step, h);
    } else if step.PollerNotify? || step.Notify? {
      DrainKeeps(s, h, true, Apply(s, step));
    }
  }

  lemma StepKeepsWaits(s: State, step: Step, h: bool, d: bool)
    requires Inv(s) && Enabled(s, step) && d in Apply(s, step).Task(h).waits
    ensures NotStranded(Apply(s, step), h, d)
  {
    if d in s.Task(h).waits {
      StaysHeard(s, step, h, d);
    }
  }

  lemma StepKeepsInv(s: State, step: Step)
    requires Inv(s) && Enabled(s, step)
    ensures Inv(Apply(s, step))
  {
    hide NotStranded, InSlotOrUnderWay;
    var t := Apply(s, step);
    forall h: bool, d: bool | d in t.Task(h).waits ensures NotStranded(t, h, d) {
      StepKeepsWaits(s, step, h, d);
    }
    forall h: bool | t.Task(h).parked ensures t.Task(h).waits != {} {
      if (step.Park? || step.FindNothing?) && s.poller.pc.half == h {
        assert s.poller.pc.dir in t.Task(h).waits;
      } else {
        assert t.Task(h) == s.Task(h);
        assert s.Task(h).waits != {};
      }
    }
    if t.poller.pc.Registered? {
      if step.Want? {
        WantIsInSlot(s, step);
      } else {
        StaysInSlot(s, step, t.poller.pc.half);
      }
    }
  }

  lemma WantIsInSlot(s: State, step: Step)
    requires Enabled(s, step) && step.Want?
    ensures InSlotOrUnderWay(Apply(s, step), s.poller.pc.half)
  {
  }

  lemma {:induction false} RunKeepsInv(states: seq<State>, steps: seq<Step>, k: nat)
    requires IsRun(states, steps) && k < |states|
    ensures Inv(states[k])
  {
    if k > 0 {
      RunKeepsInv(states, steps, k - 1);
      StepKeepsInv(states[k - 1], steps[k - 1]);
    }
  }

  /** No lost wake-up: in every state of every run, on every direction that the latest poll of a half
      found not ready (the one it parked on, the one it is about to park on, and one it carried on
      from), the half has been woken since, has its wake-up under way, or is in its slot behind an armed
      direction that is still clear (or whose event the reactor is about to deliver). */
  lemma NoLostWakeup(states: seq<State>, steps: seq<Step>, k: nat, h: bool, d: bool)
    requires IsRun(states, steps) && k < |states|
    requires d in states[k].Task(h).waits
    ensures NotStranded(states[k], h, d)
  {
    RunKeepsInv(states, steps, k);
  }

  /** A half that parked waits on something, so the law above speaks of every parked half. */
  lemma ParkedHalfWaits(states: seq<State>, steps: seq<Step>, k: nat, h: bool)
    requires IsRun(states, steps) && k < |states|
    ensures states[k].Task(h).parked ==> states[k].Task(h).waits != {}
    ensures states[k].poller.pc == Blocked(h, true) ==> true in states[k].Task(h).waits
    ensures states[k].poller.pc == Blocked(h, false) ==> false in states[k].Task(h).waits
  {
    RunKeepsInv(states, steps, k);
  }

  /** The reactor has nothing left to deliver. */
  predicate Idle(s: State) {
    s.waking == Pair(false, false) && s.notifies == 0 && s.flight == multiset{}
  }

  /** An event on the direction of half `h` is on its way to `h`. */
  predicate Due(s: State, h: bool, d: bool) {
    || WakeUnderWay(s, h)
    || (s.slots.At(h) == Some(s.Task(h).waker) && s.armed.At(d) && s.waking.At(d))
  }

  lemma StaysDue(s: State, step: Step, h: bool, d: bool)
    requires Enabled(s, step) && Due(s, h, d)
    requires !(step.Begin? && step.half == h)
    ensures Due(Apply(s, step), h, d)
  {
    if WakeUnderWay(s, h) {
      StaysUnderWay(s, step, h);
    } else if step.PollerNotify? || step.Notify? {
      DrainKeeps(s, h, d, Apply(s, step));
    }
  }

  lemma {:induction false} DueUntil(states: seq<State>, steps: seq<Step>, i: nat, j: nat, h: bool, d: bool)
    requires IsRun(states, steps) && i < j < |states|
    requires steps[i] == Event(d) && d in states[i].Task(h).waits
    requires forall k | i <= k < j :: !(steps[k].Begin? && steps[k].half == h)
    ensures Due(states[j], h, d)
    decreases j
  {
    if j == i + 1 {
      NoLostWakeup(states, steps, i, h, d);
    } else {
      DueUntil(states, steps, i, j - 1, h, d);
      StaysDue(states[j - 1], steps[j - 1], h, d);
    }
  }

  /** Readiness reaches the half that waits for it, from the moment its check found nothing, hence also
      before its poll has returned: after an event on a direction `h` waits on, whatever the other half
      and the reactor do, `h` has been woken by the time the reactor is idle (unless it was polled again
      meanwhile). */
  lemma EventReachesWaitingHalf(states: seq<State>, steps: seq<Step>, i: nat, j: nat, h: bool, d: bool)
    requires IsRun(states, steps) && i < j < |states|
    requires steps[i] == Event(d) && (d in states[i].Task(h).waits || states[i].poller.pc == Blocked(h, d))
    requires forall k | i <= k < j :: !(steps[k].Begin? && steps[k].half == h)
    requires Idle(states[j])
    ensures states[j].woken.At(h)
  {
    RunKeepsInv(states, steps, i);
    DueUntil(states, steps, i, j, h, d);
  }

  function Count(b: bool): nat { if b then 1 else 0 }

  /** Work the reactor still has to do; every reactor step but a new event uses some of it up. */
  function Backlog(s: State): nat {
    4 * (Count(s.waking.write) + Count(s.waking.read)) + 3 * s.notifies + |s.flight|
  }

  lemma ReactorMakesProgress(s: State, step: Step)
    requires Enabled(s, step) && (step.TakeWaker? || step.Notify? || step.Wake?)
    ensures Backlog(Apply(s, step)) < Backlog(s)
  {
    if step.Notify? {
      assert |Occupant(s.slots.write)| <= 1 && |Occupant(s.slots.read)| <= 1;
    }
  }

  lemma IdleMeansNoBacklog(s: State)
    ensures Idle(s) <==> Backlog(s) == 0
    ensures Idle(s) <==> !exists step: Step :: (step.TakeWaker? || step.Notify? || step.Wake?) && Enabled(s, step)
  {
    if |s.flight| > 0 {
      var w :| w in s.flight;
      assert Enabled(s, Wake(w));
    }
    if s.waking.write { assert Enabled(s, TakeWaker(false)); }
    if s.waking.read { assert Enabled(s, TakeWaker(true)); }
    if s.notifies > 0 { assert Enabled(s, Notify); }
  }
}
