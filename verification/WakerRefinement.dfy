/** Whole runs of `TlsStream` are runs of the shared-waker protocol, whatever the reactor does in between.

    The polls of a stream, as its trace has them, spell out the poller's steps. Any interleaving of these
    with reactor steps, in which readiness checks find what the readiness bits say, is a run of the
    protocol; so what the protocol guarantees is guaranteed to the callers of the polls. */
module WakerRefinement {
  import opened Basics
  import opened Trace
  import opened TraceLaws
  import opened Waiters
  import opened WakerProtocol

  // The poller's steps, and the poller on its own.

  /** The poller's steps that one event amounts to. */
  function EventMoves(m: Monitor, e: Event): seq<Step> {
    match e
    case SslWrite(_, _, _) | SslRead(_, _, _) | SslShutdown(_, _) => [SslCall]
    case Registered(_, _) => if m.phase.Wanting? then [Want(m.phase.dir.ReadSide?)] else []
    case Checked(_, NotReady) => [FindNothing]
    case Checked(_, IsReady) => [FindReady, ClearReady]
    case Checked(_, Broken(_)) => [CheckFailed]
    case Notified(poller) => if poller then [PollerNotify] else []
    case _ => []
  }

  /** The steps between two points of a trace. */
  function Script(trace: seq<Event>, from: nat, upto: nat): seq<Step>
    requires from <= upto <= |trace|
    decreases upto
  {
    if from == upto then []
    else Script(trace, from, upto - 1) + EventMoves(Observe(trace[..upto - 1]), trace[upto - 1])
  }

  /** The directions on which nothing was ready, between two points of a trace. */
  function Awaited(trace: seq<Event>, from: nat, upto: nat): set<bool>
    requires from <= upto <= |trace|
    decreases upto
  {
    if from == upto then {}
    else Awaited(trace, from, upto - 1) + if FoundNothing(trace[upto - 1]) then {trace[upto - 1].dir.ReadSide?} else {}
  }

  /** A poll from the call to the return. */
  function PollMoves(trace: seq<Event>, n: Note): seq<Step>
    requires n.from <= n.upto <= |trace|
  {
    [Begin(n.reader, n.waker)] + Script(trace, n.from, n.upto) + [if n.pending then Park else Finish]
  }

  function AllMoves(trace: seq<Event>, notes: seq<Note>): seq<Step>
    requires Logged(trace, notes)
  {
    if notes == [] then []
    else
      var k := |notes| - 1;
      AllMoves(trace, notes[..k]) + PollMoves(trace, notes[k])
  }

  predicate Walks(p: Poller, steps: seq<Step>) {
    steps == [] || (var k := |steps| - 1; Walks(p, steps[..k]) && PollerMay(Walked(p, steps[..k]), steps[k]))
  }

  function Walked(p: Poller, steps: seq<Step>): Poller {
    if steps == [] then p
    else
      var k := |steps| - 1;
      var q := Walked(p, steps[..k]);
      if PollerMay(q, steps[k]) then Move(q, steps[k]) else q
  }

  lemma {:induction false} WalkThen(p: Poller, a: seq<Step>, b: seq<Step>)
    ensures Walked(p, a + b) == Walked(Walked(p, a), b)
    ensures Walks(p, a + b) <==> Walks(p, a) && Walks(Walked(p, a), b)
  {
    hide PollerMay, Move;
    if b == [] {
      assert a + b == a;
    } else {
      var k := |b| - 1;
      assert (a + b)[..|a| + k] == a + b[..k];
      WalkThen(p, a, b[..k]);
    }
  }

  lemma WalkOne(p: Poller, step: Step)
    ensures Walks(p, [step]) <==> PollerMay(p, step)
    ensures PollerMay(p, step) ==> Walked(p, [step]) == Move(p, step)
  {
    hide PollerMay, Move;
    assert [step][..0] == [];
    assert Walked(p, []) == p && Walks(p, []);
  }

  lemma WalkTwo(p: Poller, a: Step, b: Step)
    requires PollerMay(p, a) && PollerMay(Move(p, a), b)
    ensures Walks(p, [a, b]) && Walked(p, [a, b]) == Move(Move(p, a), b)
  {
    hide PollerMay, Move, Walks, Walked;
    WalkOne(p, a);
    WalkOne(Move(p, a), b);
    WalkThen(p, [a], [b]);
    assert [a] + [b] == [a, b];
  }

  // One poll.

  /** Where the poll of half `h` stands after the events from `from` up to `upto`. */
  function PcAt(trace: seq<Event>, from: nat, upto: nat, h: bool): Pc
    requires from <= upto <= |trace|
  {
    if from == upto then Running(h)
    else
      match trace[upto - 1]
      case Registered(_, _) =>
        var phase := Observe(trace[..upto]).phase;
        if phase.Waiting? then Pc.Registered(h, phase.dir.ReadSide?) else Running(h)
      case Checked(dir, NotReady) => Blocked(h, dir.ReadSide?)
      case _ => Running(h)
  }

  /** Poller `q` has come from `p` by such a stretch of a poll of half `h`. */
  predicate Came(p: Poller, q: Poller, trace: seq<Event>, from: nat, upto: nat, h: bool)
    requires from <= upto <= |trace|
  {
    && q.pc == PcAt(trace, from, upto, h)
    && q.tasks == p.tasks.With(h, p.tasks.At(h).(waits := p.tasks.At(h).waits + Awaited(trace, from, upto)))
  }

  /** The monitor's phase and the poller's place agree before a registration or a check. */
  lemma PhaseFits(trace: seq<Event>, from: nat, upto: nat, h: bool, cx: Waker)
    requires Clean(trace) && from <= upto < |trace| && !Observe(trace[..from]).phase.Waiting?
    ensures trace[upto].Checked? ==> PcAt(trace, from, upto, h) == Pc.Registered(h, trace[upto].dir.ReadSide?)
    ensures !trace[upto].Checked? && OfPoll(trace[upto], h, cx) ==> !PcAt(trace, from, upto, h).Registered?
    ensures trace[upto].Registered? ==>
              && Observe(trace[..upto]).phase.Wanting? && PcAt(trace, from, upto, h) == Running(h)
              && Observe(trace[..upto + 1]).phase ==
                   Waiting(Observe(trace[..upto]).phase.op, Observe(trace[..upto]).phase.dir)
  {
    hide Observe, Observe1, Allowed;
    CleanEverywhere(trace, upto);
    NextNeeds(Observe(trace[..upto]), trace[upto], h, cx);
    if from < upto {
      CleanEverywhere(trace, upto - 1);
      PhaseAfter(Observe(trace[..upto - 1]), trace[upto - 1]);
    }
  }

  lemma NextNeeds(m: Monitor, e: Event, h: bool, cx: Waker)
    requires Allowed(m, e)
    ensures e.Checked? ==> m.phase.Waiting? && m.phase.dir == e.dir
    ensures e.Registered? ==> m.phase.Wanting? && Observe1(m, e).phase == Waiting(m.phase.op, m.phase.dir)
    ensures !e.Checked? && OfPoll(e, h, cx) ==> !m.phase.Waiting?
  {
  }

  lemma AwaitedMore(q: Poller, trace: seq<Event>, from: nat, upto: nat, h: bool, p: Poller)
    requires from <= upto < |trace| && Came(p, q, trace, from, upto, h)
    ensures !FoundNothing(trace[upto]) ==> Awaited(trace, from, upto + 1) == Awaited(trace, from, upto)
    ensures FoundNothing(trace[upto]) ==>
              q.tasks.At(h).waits + {trace[upto].dir.ReadSide?} == p.tasks.At(h).waits + Awaited(trace, from, upto + 1)
  {
  }

  /** Every event that a clean trace allows is a legal move of the poller, and takes it to its next place. */
  lemma EventWalks(p: Poller, q: Poller, trace: seq<Event>, from: nat, upto: nat, h: bool, cx: Waker)
    requires Clean(trace) && from <= upto < |trace| && !Observe(trace[..from]).phase.Waiting?
    requires OfPoll(trace[upto], h, cx) && Came(p, q, trace, from, upto, h)
    ensures var moves := EventMoves(Observe(trace[..upto]), trace[upto]);
            Walks(q, moves) && Came(p, Walked(q, moves), trace, from, upto + 1, h)
  {
    hide Walks, Walked, Observe, Clean;
    PhaseFits(trace, from, upto, h, cx);
    AwaitedMore(q, trace, from, upto, h, p);
    match trace[upto] {
      case Registered(_, _) => WalkOne(q, Want(Observe(trace[..upto]).phase.dir.ReadSide?));
      case Checked(_, NotReady) => WalkOne(q, FindNothing);
      case Checked(_, IsReady) => WalkTwo(q, FindReady, ClearReady);
      case Checked(_, Broken(_)) => WalkOne(q, CheckFailed);
      case Notified(_) => WalkOne(q, PollerNotify);
      case _ => WalkOne(q, SslCall);
    }
  }

  lemma {:induction false} EventsWalk(p: Poller, trace: seq<Event>, from: nat, upto: nat, h: bool, cx: Waker)
    requires Clean(trace) && from <= upto <= |trace| && !Observe(trace[..from]).phase.Waiting?
    requires Does(trace[..upto], from, h, cx) && p.pc == Running(h)
    ensures Walks(p, Script(trace, from, upto)) && Came(p, Walked(p, Script(trace, from, upto)), trace, from, upto, h)
    decreases upto
  {
    hide Observe, OfPoll, EventMoves, PcAt, Clean;
    if from == upto {
      NothingDone(p, trace, from, h);
    } else {
      var k := upto - 1;
      assert Does(trace[..k], from, h, cx) by {
        forall i | from <= i < k ensures OfPoll(trace[..k][i], h, cx) {
          assert trace[..k][i] == trace[..upto][i];
        }
      }
      assert trace[..upto][k] == trace[k];
      EventsWalk(p, trace, from, k, h, cx);
      var q := Walked(p, Script(trace, from, k));
      EventWalks(p, q, trace, from, k, h, cx);
      WalkThen(p, Script(trace, from, k), EventMoves(Observe(trace[..k]), trace[k]));
    }
  }

  lemma NothingDone(p: Poller, trace: seq<Event>, from: nat, h: bool)
    requires from <= |trace| && p.pc == Running(h)
    ensures Walks(p, []) && Came(p, Walked(p, []), trace, from, from, h)
  {
    assert p.tasks.At(h).waits + {} == p.tasks.At(h).waits;
  }

  /** A whole poll, from the call to the return, is a walk of the poller. It leaves the task of its half
      with the directions it found not ready, parked exactly if it returned `Pending`. */
  lemma PollWalks(p: Poller, trace: seq<Event>, n: Note)
    requires Clean(trace) && IsNote(trace, n) && p.pc.Free?
    ensures Walks(p, PollMoves(trace, n))
    ensures Walked(p, PollMoves(trace, n)) ==
              Poller(Free, p.tasks.With(n.reader, Task(n.waker, Awaited(trace, n.from, n.upto), n.pending)))
  {
    hide Observe, OfPoll, Clean, Walks, Walked, Script;
    var h, moves := n.reader, Script(trace, n.from, n.upto);
    var begin, end := Begin(h, n.waker), if n.pending then Park else Finish;
    WalkOne(p, begin);
    var q := Move(p, begin);
    assert q.tasks.At(h).waits + Awaited(trace, n.from, n.upto) == Awaited(trace, n.from, n.upto);
    EventsWalk(q, trace, n.from, n.upto, h, n.waker);
    WalkThen(p, [begin], moves);
    var r := Walked(q, moves);
    EndsWhere(trace, n);
    WalkOne(r, end);
    WalkThen(p, [begin] + moves, [end]);
  }

  /** `Pending` leaves the poller where it may park, anything else where it may return. */
  lemma EndsWhere(trace: seq<Event>, n: Note)
    requires Clean(trace) && IsNote(trace, n)
    ensures n.pending ==> PcAt(trace, n.from, n.upto, n.reader).Blocked?
    ensures !n.pending ==> PcAt(trace, n.from, n.upto, n.reader).Running?
  {
    hide Observe, OfPoll, Clean;
    if n.from < n.upto {
      assert trace[..n.upto][n.upto - 1] == trace[n.upto - 1];
    }
  }

  // Whole runs.

  /** The latest poll of a half, if it was ever polled. */
  function Latest(notes: seq<Note>, h: bool): Option<Note> {
    if notes == [] then None
    else
      var k := |notes| - 1;
      if notes[k].reader == h then Some(notes[k]) else Latest(notes[..k], h)
  }

  /** What the latest poll of a half leaves behind. */
  function LatestTask(trace: seq<Event>, notes: seq<Note>, h: bool): Task
    requires Logged(trace, notes)
  {
    match Latest(notes, h)
    case None => NEVER_POLLED.tasks.At(h)
    case Some(n) =>
      LatestIsLogged(trace, notes, h);
      Task(n.waker, Awaited(trace, n.from, n.upto), n.pending)
  }

  lemma {:induction false} LatestIsLogged(trace: seq<Event>, notes: seq<Note>, h: bool)
    requires Logged(trace, notes)
    ensures Latest(notes, h).Some? ==> IsNote(trace, Latest(notes, h).value) && Latest(notes, h).value in notes
  {
    hide IsNote;
    if notes != [] && notes[|notes| - 1].reader != h {
      LatestIsLogged(trace, notes[..|notes| - 1], h);
    }
  }

  /** The polls of a run, one after the other, are a walk of the poller from the start; in the end each
      half is as its latest poll left it. */
  lemma {:induction false} NotesWalk(trace: seq<Event>, notes: seq<Note>)
    requires Clean(trace) && Logged(trace, notes)
    ensures Walks(NEVER_POLLED, AllMoves(trace, notes))
    ensures var p := Walked(NEVER_POLLED, AllMoves(trace, notes));
            && p.pc.Free?
            && p.tasks == Pair(LatestTask(trace, notes, false), LatestTask(trace, notes, true))
  {
    if notes != [] {
      hide PollMoves, Clean, IsNote;
      var k := |notes| - 1;
      NotesWalk(trace, notes[..k]);
      var p := Walked(NEVER_POLLED, AllMoves(trace, notes[..k]));
      PollWalks(p, trace, notes[k]);
      WalkThen(NEVER_POLLED, AllMoves(trace, notes[..k]), PollMoves(trace, notes[k]));
      NoteBounds(trace, notes[k]);
    }
  }

  lemma NoteBounds(trace: seq<Event>, n: Note)
    requires IsNote(trace, n)
    ensures n.from <= n.upto <= |trace|
  {
  }

  /** The poller's own steps in a schedule. */
  function PollerSteps(steps: seq<Step>): seq<Step> {
    if steps == [] then []
    else
      var k := |steps| - 1;
      PollerSteps(steps[..k]) + if ByReactor(steps[k]) then [] else [steps[k]]
  }

  function Follow(s: State, step: Step): State {
    if Enabled(s, step) then Apply(s, step) else s
  }

  /** A schedule in which the poller gets as far as some point of `moves`, with anything the reactor can do
      in between. All that is asked of a step is that the world allows it: a readiness check finds what
      the bit says, and the reactor has something to deliver. */
  predicate Woven(states: seq<State>, steps: seq<Step>, moves: seq<Step>) {
    && |states| == |steps| + 1 && Init(states[0])
    && PollerSteps(steps) <= moves
    && forall i | 0 <= i < |steps| :: WorldAllows(states[i], steps[i]) && states[i + 1] == Follow(states[i], steps[i])
  }

  lemma {:induction false} PrefixWalks(p: Poller, part: seq<Step>, whole: seq<Step>)
    requires part <= whole && Walks(p, whole)
    ensures Walks(p, part)
  {
    WalkThen(p, part, whole[|part|..]);
    assert part + whole[|part|..] == whole;
  }

  lemma {:induction false} PollerStepsPrefix(steps: seq<Step>, k: nat)
    requires k <= |steps|
    ensures PollerSteps(steps[..k]) <= PollerSteps(steps)
    decreases |steps|
  {
    hide ByReactor;
    if k < |steps| {
      var n := |steps| - 1;
      assert steps[..n][..k] == steps[..k];
      PollerStepsPrefix(steps[..n], k);
    } else {
      assert steps[..k] == steps;
    }
  }

  /** Step `k` of a woven schedule is enabled, given where the poller stands. */
  lemma StepIsEnabled(states: seq<State>, steps: seq<Step>, moves: seq<Step>, k: nat)
    requires Woven(states, steps, moves) && Walks(states[0].poller, moves) && k < |steps|
    requires states[k].poller == Walked(states[0].poller, PollerSteps(steps[..k]))
    ensures Enabled(states[k], steps[k])
    ensures Apply(states[k], steps[k]).poller == Walked(states[0].poller, PollerSteps(steps[..k + 1]))
  {
    hide WorldAllows, Move, React;
    var p, before, step := states[0].poller, PollerSteps(steps[..k]), steps[k];
    assert steps[..k + 1][..k] == steps[..k];
    if ByReactor(step) {
      assert PollerSteps(steps[..k + 1]) == before + [] == before;
      ReactorKeepsPoller(p, step);
      ReactorKeepsPoller(states[k].poller, step);
    } else {
      PollerStepsPrefix(steps, k + 1);
      assert PollerSteps(steps[..k + 1]) == before + [step];
      PrefixWalks(p, before + [step], moves);
      assert (before + [step])[..|before|] == before;
    }
  }

  lemma ReactorKeepsPoller(p: Poller, step: Step)
    requires ByReactor(step)
    ensures PollerMay(p, step) && Move(p, step) == p
  {
  }

  /** Every woven schedule is a run of the protocol: each step the polls take is one they may take then. */
  lemma {:induction false} WovenIsRun(states: seq<State>, steps: seq<Step>, moves: seq<Step>, k: nat)
    requires Woven(states, steps, moves) && Walks(states[0].poller, moves) && k <= |steps|
    ensures forall i | 0 <= i < k :: Enabled(states[i], steps[i]) && states[i + 1] == Apply(states[i], steps[i])
    ensures states[k].poller == Walked(states[0].poller, PollerSteps(steps[..k]))
  {
    hide Enabled, Apply, WorldAllows, Init;
    if k > 0 {
      WovenIsRun(states, steps, moves, k - 1);
      StepIsEnabled(states, steps, moves, k - 1);
    } else {
      assert steps[..0] == [];
    }
  }

  /** So any number of polls of one stream, interleaved with the reactor in any way, is a run of the
      protocol, at every point inside and between polls. */
  lemma StreamRunsFollowTheProtocol(trace: seq<Event>, notes: seq<Note>, states: seq<State>, steps: seq<Step>)
    requires Clean(trace) && Logged(trace, notes) && Woven(states, steps, AllMoves(trace, notes))
    ensures IsRun(states, steps)
    ensures states[|steps|].poller == Walked(NEVER_POLLED, PollerSteps(steps))
  {
    hide Enabled, Apply, WorldAllows, Walks, Walked, AllMoves, Clean;
    NotesWalk(trace, notes);
    WovenIsRun(states, steps, AllMoves(trace, notes), |steps|);
    assert steps[..|steps|] == steps;
  }

  /** The caller's guarantee. Once all the polls of the log have returned, a half whose latest poll was
      `Pending` is parked, and on every direction that poll found not ready, the one it was carried on
      from included, it has been woken, is about to be, or will hear of the next event. */
  ghost predicate Attended(s: State, trace: seq<Event>, n: Note)
    requires n.from <= n.upto <= |trace|
  {
    && s.Task(n.reader) == Task(n.waker, Awaited(trace, n.from, n.upto), n.pending)
    && (n.pending ==> Awaited(trace, n.from, n.upto) != {})
    && forall d: bool | d in Awaited(trace, n.from, n.upto) :: NotStranded(s, n.reader, d)
  }

  lemma PendingPollIsNotStranded(trace: seq<Event>, notes: seq<Note>, states: seq<State>, steps: seq<Step>, h: bool)
    requires Clean(trace) && Logged(trace, notes)
    requires FullyWoven(states, steps, AllMoves(trace, notes))
    ensures IsRun(states, steps)
    ensures Latest(notes, h).Some? ==>
              var n := Latest(notes, h).value; n.from <= n.upto <= |trace| && Attended(states[|steps|], trace, n)
  {
    hide Enabled, Apply, WorldAllows, Walks, Walked, AllMoves, Clean, IsNote, NotStranded;
    NotesWalk(trace, notes);
    StreamRunsFollowTheProtocol(trace, notes, states, steps);
    LatestIsLogged(trace, notes, h);
    var s := states[|steps|];
    if Latest(notes, h).Some? {
      var n := Latest(notes, h).value;
      NoteBounds(trace, n);
      LatestReads(notes, h);
      ParkedHalfWaits(states, steps, |steps|, h);
      forall d: bool | d in Awaited(trace, n.from, n.upto) ensures NotStranded(s, n.reader, d) {
        NoLostWakeup(states, steps, |steps|, h, d);
      }
    }
  }

  lemma {:induction false} LatestReads(notes: seq<Note>, h: bool)
    ensures Latest(notes, h).Some? ==> Latest(notes, h).value.reader == h
  {
    if notes != [] && notes[|notes| - 1].reader != h {
      LatestReads(notes[..|notes| - 1], h);
    }
  }

  // Such schedules exist for every run: the reactor only has to set a bit before each check that found it set.

  predicate AllByPoller(moves: seq<Step>) {
    forall i | 0 <= i < |moves| :: !ByReactor(moves[i])
  }

  lemma {:induction false} ScriptIsByPoller(trace: seq<Event>, from: nat, upto: nat)
    requires from <= upto <= |trace|
    ensures AllByPoller(Script(trace, from, upto))
    decreases upto
  {
    hide Observe;
    if from < upto {
      ScriptIsByPoller(trace, from, upto - 1);
    }
  }

  lemma {:induction false} MovesAreByPoller(trace: seq<Event>, notes: seq<Note>)
    requires Logged(trace, notes)
    ensures AllByPoller(AllMoves(trace, notes))
  {
    if notes != [] {
      hide Observe, IsPoll, Script;
      var k := |notes| - 1;
      MovesAreByPoller(trace, notes[..k]);
      ScriptIsByPoller(trace, notes[k].from, notes[k].upto);
    }
  }

  /** A full schedule of `moves`. */
  predicate FullyWoven(states: seq<State>, steps: seq<Step>, moves: seq<Step>) {
    Woven(states, steps, moves) && PollerSteps(steps) == moves
  }

  lemma WeaveMore(states: seq<State>, steps: seq<Step>, moves: seq<Step>, step: Step)
    requires FullyWoven(states, steps, moves) && WorldAllows(states[|steps|], step)
    ensures FullyWoven(states + [Follow(states[|steps|], step)], steps + [step],
                       moves + if ByReactor(step) then [] else [step])
  {
    hide WorldAllows, Follow, Init, ByReactor;
    var n := |steps|;
    assert (steps + [step])[..n] == steps;
    var more, longer := states + [Follow(states[n], step)], steps + [step];
    forall i | 0 <= i < |longer| ensures WorldAllows(more[i], longer[i]) && more[i + 1] == Follow(more[i], longer[i]) {
      if i < n {
        assert more[i] == states[i] && longer[i] == steps[i] && more[i + 1] == states[i + 1];
      }
    }
  }

  /** No bit is set but the one that was just seen. */
  predicate Quiet(s: State) {
    forall d: bool | s.ready.At(d) :: s.poller.pc.SawReady? && s.poller.pc.dir == d
  }

  lemma {:induction false} CanBeWoven(moves: seq<Step>) returns (states: seq<State>, steps: seq<Step>)
    requires Walks(NEVER_POLLED, moves) && AllByPoller(moves)
    ensures FullyWoven(states, steps, moves) && Quiet(states[|steps|])
  {
    if moves == [] {
      var none := Pair(false, false);
      states, steps := [State(NEVER_POLLED, Pair(None, None), none, none, none, 0, multiset{}, none)], [];
    } else {
      hide FullyWoven, Quiet, PollerMay, ByReactor;
      var k := |moves| - 1;
      states, steps := CanBeWoven(moves[..k]);
      WovenEnds(states, steps, moves[..k]);
      states, steps := WeaveNext(states, steps, moves[..k], moves[k]);
      assert moves[..k] + [moves[k]] == moves;
    }
  }

  lemma WovenEnds(states: seq<State>, steps: seq<Step>, moves: seq<Step>)
    requires FullyWoven(states, steps, moves) && Walks(NEVER_POLLED, moves)
    ensures |states| == |steps| + 1 && states[|steps|].poller == Walked(NEVER_POLLED, moves)
  {
    hide Walks, Walked, WorldAllows, Follow;
    WovenIsRun(states, steps, moves, |steps|);
    assert steps[..|steps|] == steps;
  }

  lemma WeaveNext(states: seq<State>, steps: seq<Step>, moves: seq<Step>, step: Step)
    returns (more: seq<State>, longer: seq<Step>)
    requires FullyWoven(states, steps, moves) && !ByReactor(step)
    requires Quiet(states[|steps|]) && PollerMay(states[|steps|].poller, step)
    ensures FullyWoven(more, longer, moves + [step]) && Quiet(more[|longer|])
  {
    hide WorldAllows, PollerSteps, Init, Follow;
    more, longer := states, steps;
    if step.FindReady? {
      var s := states[|steps|];
      var event := Event(s.poller.pc.dir);
      EventSetsBit(s, event.dir);
      WeaveMore(states, steps, moves, event);
      assert moves + [] == moves;
      more, longer := states + [Follow(s, event)], steps + [event];
    }
    QuietStep(more[|longer|], step);
    WeaveMore(more, longer, moves, step);
    more, longer := more + [Follow(more[|longer|], step)], longer + [step];
  }

  lemma EventSetsBit(s: State, d: bool)
    requires !s.ready.At(!d)
    ensures WorldAllows(s, Event(d))
    ensures var t := Follow(s, Event(d)); t.poller == s.poller && t.ready.At(d) && !t.ready.At(!d)
  {
  }

  lemma QuietStep(s: State, step: Step)
    requires !ByReactor(step) && PollerMay(s.poller, step)
    requires if step.FindReady? then s.ready.At(s.poller.pc.dir) && !s.ready.At(!s.poller.pc.dir) else Quiet(s)
    ensures WorldAllows(s, step) && Quiet(Follow(s, step))
  {
    var t := Follow(s, step);
    forall d: bool | t.ready.At(d) ensures t.poller.pc.SawReady? && t.poller.pc.dir == d {
      assert s.ready.At(d);
      if step.FindReady? {
        var dir := s.poller.pc.dir;
        assert d == dir || d == !dir;
      }
    }
  }

  /** The guarantee above is never an empty promise: every log of polls has a full schedule. */
  lemma EveryRunCanBeWoven(trace: seq<Event>, notes: seq<Note>) returns (states: seq<State>, steps: seq<Step>)
    requires Clean(trace) && Logged(trace, notes)
    ensures FullyWoven(states, steps, AllMoves(trace, notes))
  {
    hide Clean, Walks, Walked;
    NotesWalk(trace, notes);
    MovesAreByPoller(trace, notes);
    states, steps := CanBeWoven(AllMoves(trace, notes));
  }
}
