/** The two composed: any run of a userspace stream, under anything the reactor may do during and between
    its polls, leaves no caller stranded. */
module StreamWakeups {
  import opened Basics
  import opened StreamLaws
  import opened StreamRuns
  import opened TlsStream
  import opened Trace
  import opened TraceLaws
  import opened WakerProtocol
  import opened WakerRefinement

  /** Each half is as its latest poll left it, and not stranded on anything that poll waits for. */
  ghost predicate AllAttended(s: State, trace: seq<Event>, notes: seq<Note>) {
    forall h: bool | Latest(notes, h).Some? ::
      var n := Latest(notes, h).value;
      n.from <= n.upto <= |trace| && Attended(s, trace, n)
  }

  lemma EveryScheduleAttends(trace: seq<Event>, notes: seq<Note>, states: seq<State>, steps: seq<Step>)
    requires Clean(trace) && Logged(trace, notes) && FullyWoven(states, steps, AllMoves(trace, notes))
    ensures IsRun(states, steps) && AllAttended(states[|steps|], trace, notes)
  {
    hide Clean, IsNote, AllMoves, Attended, IsRun;
    forall h: bool | Latest(notes, h).Some?
      ensures var n := Latest(notes, h).value;
              n.from <= n.upto <= |trace| && Attended(states[|steps|], trace, n)
    {
      PendingPollIsNotStranded(trace, notes, states, steps, h);
    }
    PendingPollIsNotStranded(trace, notes, states, steps, true);
  }

  /** Once all polls are in, only the reactor acts. */
  lemma OnlyReactorFrom(steps: seq<Step>, i: nat, k: nat)
    requires i <= k < |steps| && PollerSteps(steps[..i]) == PollerSteps(steps)
    ensures ByReactor(steps[k])
  {
    hide ByReactor, PollerSteps;
    PollerStepsPrefix(steps, k + 1);
    PollerStepsPrefix(steps[..k], i);
    assert steps[..k][..i] == steps[..i];
    OneMoreStep(steps, k);
  }

  lemma OneMoreStep(steps: seq<Step>, k: nat)
    requires k < |steps|
    ensures PollerSteps(steps[..k + 1]) == PollerSteps(steps[..k]) + if ByReactor(steps[k]) then [] else [steps[k]]
  {
    hide ByReactor;
    assert steps[..k + 1][..k] == steps[..k];
  }

  lemma WovenSoFar(states: seq<State>, steps: seq<Step>, moves: seq<Step>, i: nat)
    requires FullyWoven(states, steps, moves) && i <= |steps| && PollerSteps(steps[..i]) == moves
    ensures FullyWoven(states[..i + 1], steps[..i], moves)
  {
    hide WorldAllows, Follow, Init, PollerSteps;
  }

  /** Readiness reaches the caller: after all the polls of a run, an event on any direction that the latest
      poll of a half found not ready has its task woken by the time the reactor is idle. */
  lemma EventWakesTheCaller(trace: seq<Event>, notes: seq<Note>, states: seq<State>, steps: seq<Step>,
                            i: nat, j: nat, n: Note, d: bool)
    requires Clean(trace) && Logged(trace, notes) && FullyWoven(states, steps, AllMoves(trace, notes))
    requires i < j <= |steps| && PollerSteps(steps[..i]) == AllMoves(trace, notes)
    requires Latest(notes, n.reader) == Some(n) && n.from <= n.upto <= |trace| && d in Awaited(trace, n.from, n.upto)
    requires steps[i] == Step.Event(d) && Idle(states[j])
    ensures states[j].woken.At(n.reader) && states[j].Task(n.reader).waker == n.waker
  {
    hide Clean, IsNote, AllMoves, Idle, Awaited, Enabled, Apply;
    EveryScheduleAttends(trace, notes, states, steps);
    WovenSoFar(states, steps, AllMoves(trace, notes), i);
    PendingPollIsNotStranded(trace, notes, states[..i + 1], steps[..i], n.reader);
    assert states[..i + 1][i] == states[i];
    forall k | i <= k < j ensures ByReactor(steps[k]) {
      OnlyReactorFrom(steps, i, k);
    }
    EventReachesWaitingHalf(states, steps, i, j, n.reader, d);
    TaskStays(states, steps, i, j, n.reader);
  }

  lemma {:induction false} TaskStays(states: seq<State>, steps: seq<Step>, i: nat, j: nat, h: bool)
    requires WakerProtocol.IsRun(states, steps) && i <= j < |states|
    requires forall k | i <= k < j :: ByReactor(steps[k])
    ensures states[j].Task(h) == states[i].Task(h)
    decreases j
  {
    if i < j {
      TaskStays(states, steps, i, j - 1, h);
    }
  }

  /** The polls of the run, in order, and what every schedule of them with the reactor comes to. */
  method RunWithReactor(s: TlsStream, commands: seq<Command>)
    returns (replies: seq<Reply>, ghost marks: seq<nat>, ghost notes: seq<Note>)
    requires s.Valid() && !s.ktlsActive && s.io.trace == []
    modifies s`pendingWrite, s`waiters, s`writeError, s`accepted, s`received, s`shutdown
    modifies s.io, s.waiters, s.ktlsReader, s.ktlsReader.alert
    ensures s.Valid() && |replies| == |commands| && |marks| == |commands| + 1
    ensures notes == NotesOf(commands, replies, marks) && Logged(s.io.trace, notes)
    ensures forall states, steps | FullyWoven(states, steps, AllMoves(s.io.trace, notes)) ::
              IsRun(states, steps) && AllAttended(states[|steps|], s.io.trace, notes)
  {
    hide Lawful, Observe, Spans, RunOutcome, NobodyForgotten, FullyWoven, AllMoves, AllAttended, Logged;
    hide Enabled, Apply;
    replies, marks := Run(s, commands);
    LawfulIsClean(s.View());
    NotesAreLogged(s.io.trace, commands, replies, marks, |commands|);
    assert commands[..|commands|] == commands && replies[..|commands|] == replies && marks[..|commands| + 1] == marks;
    notes := NotesOf(commands, replies, marks);
    forall states, steps | FullyWoven(states, steps, AllMoves(s.io.trace, notes))
      ensures IsRun(states, steps) && AllAttended(states[|steps|], s.io.trace, notes)
    {
      EveryScheduleAttends(s.io.trace, notes, states, steps);
    }
  }
}
