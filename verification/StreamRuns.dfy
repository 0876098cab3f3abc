/** Whole runs: any sequence of polls, with any buffers and wakers, and any events in between. */
module StreamRuns {
  import opened Basics
  import opened Records
  import opened RecordReader
  import opened RecordStream
  import opened StreamLaws
  import opened Trace
  import opened TraceLaws
  import opened TlsStream
  import opened Waiters

  datatype Command =
    | Write(cx: Waker, bytes: seq<byte>)
    | Flush(cx: Waker)
    | Shut(cx: Waker)
    | Read(cx: Waker, capacity: nat)
    // the reactor has more events in store
    | Arrive(events: nat)
    // the reactor runs the shared waker
    | Fire

  predicate Polls(c: Command) {
    c.Write? || c.Flush? || c.Shut? || c.Read?
  }

  /** Does the command ask for anything? A write of no bytes and a read into no space do not. */
  predicate Asks(c: Command) {
    c.Flush? || c.Shut? || (c.Write? && c.bytes != []) || (c.Read? && c.capacity > 0)
  }

  /** What the caller of one poll learns: bytes acknowledged, bytes received, and the error if any. */
  datatype Reply = Reply(acked: seq<byte>, received: seq<byte>, pending: bool, error: Option<IoError>)

  /** Nobody is forgotten by one command: whoever was in a slot is still there, was woken, or gave way to
      the waker of a new poll of the same half, itself still there or woken. A failure of the write side
      leaves nobody in the slots. */
  ghost predicate Remembered(s: Stream, t: Stream, c: Command) {
    && s.woken <= t.woken
    && (forall r: bool | s.slots[SlotOf(r)].Some? ::
          || t.slots[SlotOf(r)] == s.slots[SlotOf(r)] || s.slots[SlotOf(r)].value in t.woken[|s.woken|..]
          || (Polls(c) && c.Read? == r && (t.slots[SlotOf(r)] == Some(c.cx) || c.cx in t.woken[|s.woken|..])))
    && (s.writeError.None? && t.writeError.Some? ==> t.slots == NOBODY)
  }

  lemma KeptIsRemembered(s: Stream, t: Stream, c: Command, heard: bool)
    requires Polls(c) && WaitersKept(s, t, c.Read?, c.cx, heard)
    ensures Remembered(s, t, c)
  {
  }

  lemma PolledIsRemembered(s: Stream, t: Stream, c: Command, heard: bool, pending: bool)
    requires Polls(c) && Polled(s, t, c.Read?, c.cx, heard, pending)
    ensures Remembered(s, t, c) && IsPoll(t.trace, |s.trace|, c.Read?, c.cx, pending)
  {
    KeptIsRemembered(s, t, c, heard);
  }

  /** The latched error is a copy of the one that the event which ended the write side brought: a fatal SSL
      call its own report, a failed send, check or TCP shutdown its own error. */
  lemma LatchedErrorIsOfTheEvent(s: Stream) returns (i: nat)
    requires Lawful(s) && s.writeError.Some?
    ensures i < |s.trace| && EndsWriting(s.trace, i) && ErrorOf(s.trace[i]).Some?
    ensures s.writeError == Some(Duplicate(ErrorOf(s.trace[i]).value))
    ensures SameReport(s.writeError.value, ErrorOf(s.trace[i]).value)
  {
    hide Observe, EndsWriting, ErrorOf;
    i := CauseIsOfTheEvent(s.trace);
  }

  lemma NothingIsRemembered(s: Stream, c: Command)
    ensures Remembered(s, s, c)
  {
  }

  lemma FiringIsRemembered(s: Stream, c: Command)
    ensures Remembered(s, Woken(s, false), c)
  {
    assert Woken(s, false).woken[|s.woken|..] == Occupied(s.slots);
    if s.slots[0].Some? { OccupantsAreIn(s.slots, 0); }
    if s.slots[1].Some? { OccupantsAreIn(s.slots, 1); }
  }

  /** What one command may do to a stream, and what its caller is told. */
  ghost predicate Outcome(s: Stream, t: Stream, c: Command, reply: Reply) {
    && s.trace <= t.trace && t.ktls == s.ktls
    // only a write acknowledges bytes, a prefix of its own, and only while the stream is open
    && t.accepted == s.accepted + reply.acked
    && (reply.acked != [] ==> c.Write? && reply.acked <= c.bytes && s.shutdown == Open)
    // what libssl handed out is what the caller got
    && (!s.ktls ==> t.received == s.received + reply.received)
    && (reply.pending ==> reply.acked == [] && reply.received == [])
    && (s.shutdown != Open ==> t.shutdown != Open)
    // a failure is for good, and in userspace nothing happens any more but that it is reported
    && (s.writeError.Some? ==> t.writeError == s.writeError)
    && (s.writeError.Some? && !s.ktls ==> t == s && reply.received == [])
    && (s.writeError.Some? && !s.ktls && Asks(c) ==> reply.error == s.writeError)
    // whoever runs into it first is told the very error of the event that ended the write side
    && (s.writeError.None? && t.writeError.Some? ==> reply.error.Some? && reply.error == Observe(t.trace).cause)
    // nobody who waits is forgotten, and a pending poll will be woken
    && Remembered(s, t, c)
    && CarriedOut(t.trace, |s.trace|, c, reply, !s.ktls)
  }

  /** A userspace poll did what a poll of its half does, and every poll that returned `Pending` ended with
      something that will have it polled again. */
  ghost predicate CarriedOut(trace: seq<Event>, from: nat, c: Command, reply: Reply, userspace: bool) {
    && from <= |trace|
    && (userspace && Polls(c) ==> IsPoll(trace, from, c.Read?, c.cx, reply.pending))
    && (reply.pending ==> Polls(c) && from < |trace| && Reschedules(trace[|trace| - 1], c.cx))
  }

  method PerformWrite(s: TlsStream, cx: Waker, bytes: seq<byte>) returns (reply: Reply)
    requires s.Valid()
    modifies s`pendingWrite, s`waiters, s`writeError, s`accepted, s.io, s.waiters
    ensures s.Valid() && s.SameWaiters() && reply.received == []
    ensures Outcome(old(s.View()), s.View(), Write(cx, bytes), reply)
  {
    hide Lawful, Mirrors, Observe, After, Remembered, WaitersKept, Polled, IsPoll, SameReport;
    ghost var before := s.View();
    assert s.accepted + [] == s.accepted && s.received + [] == s.received;
    var r := s.PollWrite(cx, bytes);
    if r.Ready? && r.value.Ok? {
      reply := Reply(bytes[..r.value.value], [], false, None);
    } else {
      reply := Reply([], [], r.Pending?, if r.Ready? then Some(r.value.error) else None);
    }
    if s.ktlsActive {
      KeptIsRemembered(before, s.View(), Write(cx, bytes), false);
    } else {
      PolledIsRemembered(before, s.View(), Write(cx, bytes),
        && bytes != [] && before.writeError.None? && before.shutdown == Open
        && (s.writeError.Some? || (before.pending != [] && r.Ready?)), r.Pending?);
    }
  }

  method PerformFlush(s: TlsStream, cx: Waker) returns (reply: Reply)
    requires s.Valid()
    modifies s`pendingWrite, s`waiters, s`writeError, s.io, s.waiters
    ensures s.Valid() && s.SameWaiters() && reply.received == []
    ensures Outcome(old(s.View()), s.View(), Flush(cx), reply)
  {
    hide Lawful, Mirrors, Observe, After, Remembered, WaitersKept, Polled, IsPoll, SameReport;
    ghost var before := s.View();
    assert s.accepted + [] == s.accepted && s.received + [] == s.received;
    var r := s.PollFlush(cx);
    reply := Reply([], [], r.Pending?, if Fails(r) then Some(r.value.error) else None);
    PolledIsRemembered(before, s.View(), Flush(cx),
      r.Ready? && before.pending != [] && before.writeError.None?, r.Pending?);
  }

  method PerformShut(s: TlsStream, cx: Waker) returns (reply: Reply)
    requires s.Valid()
    modifies s`pendingWrite, s`waiters, s`writeError, s`shutdown, s.io, s.waiters
    ensures s.Valid() && s.SameWaiters() && reply.received == []
    ensures Outcome(old(s.View()), s.View(), Shut(cx), reply)
  {
    hide Lawful, Mirrors, Observe, After, Remembered, WaitersKept, Polled, IsPoll, SameReport;
    ghost var before := s.View();
    assert s.accepted + [] == s.accepted && s.received + [] == s.received;
    var r := s.PollShutdown(cx);
    reply := Reply([], [], r.Pending?, if Fails(r) then Some(r.value.error) else None);
    if s.ktlsActive {
      KeptIsRemembered(before, s.View(), Shut(cx), before.writeError.None? && s.writeError.Some?);
    } else {
      PolledIsRemembered(before, s.View(), Shut(cx),
        Settles(before, s.View()), r.Pending?);
    }
  }

  method PerformRead(s: TlsStream, cx: Waker, capacity: nat) returns (reply: Reply)
    requires s.Valid()
    modifies s`pendingWrite, s`waiters, s`writeError, s`received
    modifies s.io, s.waiters, s.ktlsReader, s.ktlsReader.alert
    ensures s.Valid() && s.SameWaiters()
    ensures Outcome(old(s.View()), s.View(), Read(cx, capacity), reply)
    ensures s.ktlsActive ==>
              Delivered(INITIAL, s.ktlsReader.inputs) == Delivered(INITIAL, old(s.ktlsReader.inputs)) + reply.received
  {
    hide Lawful, Mirrors, Observe, After, Delivered, TookIn, Remembered, WaitersKept, Polled, IsPoll, SameReport;
    ghost var before := s.View();
    assert s.accepted + [] == s.accepted && s.received + [] == s.received;
    var buf := new ReadBuf(capacity);
    var r := s.PollRead(cx, buf);
    reply := Reply([], buf.data[..buf.filled], r.Pending?, if Fails(r) then Some(r.value.error) else None);
    if s.ktlsActive {
      KeptIsRemembered(before, s.View(), Read(cx, capacity), false);
    } else {
      PolledIsRemembered(before, s.View(), Read(cx, capacity),
        Settles(before, s.View()), r.Pending?);
    }
  }

  /** The reactor runs the shared waker between two polls. */
  method PerformFire(s: TlsStream)
    requires s.Valid()
    modifies s.io, s.waiters
    ensures s.Valid() && Outcome(old(s.View()), s.View(), Fire, NO_REPLY)
  {
    hide Lawful, Mirrors, Observe, After, Remembered, IsPoll;
    ghost var before := s.View();
    NothingIsRemembered(before, Fire);
    assert s.accepted + [] == s.accepted && s.received + [] == s.received;
    if s.waiters != null && s.waiters.slots != NOBODY {
      if s.writeError.Some? {
        NobodyAfterFailure(before);
      }
      Notifies(before, false);
      FiringIsRemembered(before, Fire);
      s.NotifyWaiters(false);
    }
  }

  const NO_REPLY := Reply([], [], false, None)

  lemma NoOutcome(s: Stream, events: nat)
    ensures Outcome(s, s, Arrive(events), NO_REPLY)
  {
    assert s.accepted + [] == s.accepted && s.received + [] == s.received;
  }

  /** Dropping a poll's future never touches the stream, so a cancelled poll is just a poll whose
      command is not repeated. */
  method Perform(s: TlsStream, c: Command) returns (reply: Reply)
    requires s.Valid()
    modifies s`pendingWrite, s`waiters, s`writeError, s`accepted, s`received, s`shutdown
    modifies s.io, s.waiters, s.ktlsReader, s.ktlsReader.alert
    ensures s.Valid() && s.SameWaiters()
    ensures Outcome(old(s.View()), s.View(), c, reply)
    ensures s.ktlsActive ==>
              Delivered(INITIAL, s.ktlsReader.inputs) == Delivered(INITIAL, old(s.ktlsReader.inputs)) + reply.received
  {
    hide Lawful, Mirrors, Observe, After, Delivered, Outcome;
    assert Delivered(INITIAL, s.ktlsReader.inputs) + [] == Delivered(INITIAL, s.ktlsReader.inputs);
    match c {
      case Write(cx, bytes) => reply := PerformWrite(s, cx, bytes);
      case Flush(cx) => reply := PerformFlush(s, cx);
      case Shut(cx) => reply := PerformShut(s, cx);
      case Read(cx, capacity) => reply := PerformRead(s, cx, capacity);
      case Arrive(events) =>
        NoOutcome(s.View(), events);
        s.io.Arrive(events);
        reply := NO_REPLY;
      case Fire =>
        PerformFire(s);
        reply := NO_REPLY;
    }
  }

  function Acked(replies: seq<Reply>): seq<byte> {
    if replies == [] then [] else Acked(replies[..|replies| - 1]) + replies[|replies| - 1].acked
  }

  function ReceivedBytes(replies: seq<Reply>): seq<byte> {
    if replies == [] then [] else ReceivedBytes(replies[..|replies| - 1]) + replies[|replies| - 1].received
  }

  /** Command `i` of a run was carried out between `marks[i]` and `marks[i + 1]` of the trace. */
  ghost predicate Spans(trace: seq<Event>, c: Command, reply: Reply, from: nat, upto: nat, userspace: bool) {
    && from <= upto <= |trace|
    && !Observe(trace[..from]).phase.Waiting? && !Observe(trace[..upto]).phase.Waiting?
    && CarriedOut(trace[..upto], from, c, reply, userspace)
  }

  ghost predicate Marked(trace: seq<Event>, commands: seq<Command>, replies: seq<Reply>, marks: seq<nat>,
                         userspace: bool) {
    && |replies| == |commands| && |marks| == |commands| + 1 && marks[|commands|] == |trace|
    && forall i | 0 <= i < |commands| :: Spans(trace, commands[i], replies[i], marks[i], marks[i + 1], userspace)
  }

  lemma MarkedMore(trace: seq<Event>, more: seq<Event>, commands: seq<Command>, c: Command,
                   replies: seq<Reply>, reply: Reply, marks: seq<nat>, userspace: bool)
    requires Marked(trace, commands, replies, marks, userspace) && trace <= more
    requires CarriedOut(more, |trace|, c, reply, userspace)
    requires !Observe(trace).phase.Waiting? && !Observe(more).phase.Waiting?
    ensures Marked(more, commands + [c], replies + [reply], marks + [|more|], userspace)
  {
    hide CarriedOut, Observe, Spans;
    var commands', replies', marks' := commands + [c], replies + [reply], marks + [|more|];
    forall i | 0 <= i < |commands'|
      ensures Spans(more, commands'[i], replies'[i], marks'[i], marks'[i + 1], userspace)
    {
      if i < |commands| {
        assert Spans(trace, commands[i], replies[i], marks[i], marks[i + 1], userspace);
        SpansOn(trace, more, commands[i], replies[i], marks[i], marks[i + 1], userspace);
      } else {
        SpansLast(trace, more, c, reply, userspace);
      }
    }
  }

  lemma SpansOn(trace: seq<Event>, more: seq<Event>, c: Command, reply: Reply, from: nat, upto: nat, userspace: bool)
    requires Spans(trace, c, reply, from, upto, userspace) && trace <= more
    ensures Spans(more, c, reply, from, upto, userspace)
  {
    hide CarriedOut, Observe;
    assert more[..from] == trace[..from] && more[..upto] == trace[..upto];
  }

  lemma SpansLast(trace: seq<Event>, more: seq<Event>, c: Command, reply: Reply, userspace: bool)
    requires trace <= more && CarriedOut(more, |trace|, c, reply, userspace)
    requires !Observe(trace).phase.Waiting? && !Observe(more).phase.Waiting?
    ensures Spans(more, c, reply, |trace|, |more|, userspace)
  {
    hide CarriedOut, Observe;
    assert more[..|trace|] == trace && more[..|more|] == more;
  }

  /** The polls of a marked run. */
  function NotesOf(commands: seq<Command>, replies: seq<Reply>, marks: seq<nat>): seq<Note>
    requires |replies| == |commands| && |marks| == |commands| + 1
  {
    if commands == [] then []
    else
      var k := |commands| - 1;
      NotesOf(commands[..k], replies[..k], marks[..k + 1]) +
        if Polls(commands[k]) then
          [Note(commands[k].Read?, commands[k].cx, marks[k], marks[k + 1], replies[k].pending)]
        else []
  }

  lemma SpanIsNote(trace: seq<Event>, c: Command, reply: Reply, from: nat, upto: nat)
    requires Spans(trace, c, reply, from, upto, true)
    ensures from <= upto <= |trace|
    ensures Polls(c) ==> IsNote(trace, Note(c.Read?, c.cx, from, upto, reply.pending))
  {
    hide Observe, IsPoll, Reschedules;
  }

  lemma {:induction false} NotesAreLogged(trace: seq<Event>, commands: seq<Command>, replies: seq<Reply>,
                                          marks: seq<nat>, k: nat)
    requires Marked(trace, commands, replies, marks, true) && k <= |commands|
    ensures var notes := NotesOf(commands[..k], replies[..k], marks[..k + 1]);
            Logged(trace, notes) && (notes != [] ==> notes[|notes| - 1].upto <= marks[k])
  {
    hide IsNote, Spans, Polls;
    if k > 0 {
      NotesAreLogged(trace, commands, replies, marks, k - 1);
      assert commands[..k][..k - 1] == commands[..k - 1] && replies[..k][..k - 1] == replies[..k - 1];
      assert marks[..k + 1][..k] == marks[..k];
      assert Spans(trace, commands[k - 1], replies[k - 1], marks[k - 1], marks[k], true);
      SpanIsNote(trace, commands[k - 1], replies[k - 1], marks[k - 1], marks[k]);
    }
  }

  /** Between any two points of the run: a waker leaves its slot only by being woken, or because its own
      half registers again. */
  ghost predicate NobodyForgotten(trace: seq<Event>) {
    forall i: nat, j: nat, r: bool | i <= j <= |trace| && NoneRegistered(trace, i, j, r) ::
      Accounted(Observe(trace[..i]), Observe(trace[..j]), r)
  }

  lemma CleanForgetsNobody(trace: seq<Event>)
    requires Clean(trace)
    ensures NobodyForgotten(trace)
  {
    hide Observe, Accounted;
    forall i: nat, j: nat, r: bool | i <= j <= |trace| && NoneRegistered(trace, i, j, r)
      ensures Accounted(Observe(trace[..i]), Observe(trace[..j]), r)
    {
      LeavesOnlyWoken(trace, i, j, r);
    }
  }

  lemma LawfulIsClean(s: Stream)
    requires Lawful(s)
    ensures Clean(s.trace) && !Observe(s.trace).phase.Waiting?
  {
  }

  /** What a whole run may do to a stream: the history of acknowledged and of received bytes is what the
      callers were told, and a write side that had failed in userspace stays as it was, with every
      operation reporting the latched error. */
  ghost predicate RunOutcome(s: Stream, t: Stream, commands: seq<Command>, replies: seq<Reply>) {
    && |replies| == |commands|
    && s.trace <= t.trace && t.ktls == s.ktls
    && t.accepted == s.accepted + Acked(replies)
    && (s.shutdown != Open ==> t.shutdown != Open && Acked(replies) == [])
    && (!s.ktls ==> t.received == s.received + ReceivedBytes(replies))
    && (s.writeError.Some? ==> t.writeError == s.writeError)
    && (s.writeError.Some? && !s.ktls ==>
          t == s && forall i | 0 <= i < |commands| && Asks(commands[i]) :: replies[i].error == s.writeError)
  }

  lemma RunOutcomeMore(s: Stream, t: Stream, u: Stream, commands: seq<Command>, c: Command,
                       replies: seq<Reply>, reply: Reply)
    requires RunOutcome(s, t, commands, replies) && Outcome(t, u, c, reply)
    ensures RunOutcome(s, u, commands + [c], replies + [reply])
  {
    hide Remembered, CarriedOut, Asks;
    assert (replies + [reply])[..|replies|] == replies;
    assert (s.accepted + Acked(replies)) + reply.acked == s.accepted + (Acked(replies) + reply.acked);
    assert (s.received + ReceivedBytes(replies)) + reply.received ==
           s.received + (ReceivedBytes(replies) + reply.received);
  }

  lemma NothingRun(s: Stream)
    ensures RunOutcome(s, s, [], [])
  {
    assert s.accepted + [] == s.accepted && s.received + [] == s.received;
  }

  /** Any run from any lawful state. The law holds at the end, hence after every prefix; the run has a
      proper outcome; nobody who waits is forgotten, and every pending poll ends where it will be polled
      again. */
  method Run(s: TlsStream, commands: seq<Command>) returns (replies: seq<Reply>, ghost marks: seq<nat>)
    requires s.Valid()
    modifies s`pendingWrite, s`waiters, s`writeError, s`accepted, s`received, s`shutdown
    modifies s.io, s.waiters, s.ktlsReader, s.ktlsReader.alert
    ensures s.Valid() && s.SameWaiters()
    ensures RunOutcome(old(s.View()), s.View(), commands, replies)
    ensures s.ktlsActive ==>
              Delivered(INITIAL, s.ktlsReader.inputs) ==
                Delivered(INITIAL, old(s.ktlsReader.inputs)) + ReceivedBytes(replies)
    ensures Marked(s.io.trace, commands, replies, marks, !s.ktlsActive) && marks[0] == |old(s.io.trace)|
    ensures NobodyForgotten(s.io.trace)
  {
    hide Lawful, Mirrors, Observe, After, Delivered, Marked, Outcome, RunOutcome, NobodyForgotten;
    replies, marks := [], [|s.io.trace|];
    NothingMarked(s.io.trace, !s.ktlsActive);
    NothingRun(s.View());
    assert Delivered(INITIAL, s.ktlsReader.inputs) + [] == Delivered(INITIAL, s.ktlsReader.inputs);
    for i := 0 to |commands|
      invariant s.Valid() && |replies| == i && |marks| == i + 1 && marks[0] == |old(s.io.trace)| && s.SameWaiters()
      invariant RunOutcome(old(s.View()), s.View(), commands[..i], replies)
      invariant s.ktlsActive ==>
                  Delivered(INITIAL, s.ktlsReader.inputs) ==
                    Delivered(INITIAL, old(s.ktlsReader.inputs)) + ReceivedBytes(replies)
      invariant Marked(s.io.trace, commands[..i], replies, marks, !s.ktlsActive)
    {
      ghost var before := s.View();
      LawfulIsClean(before);
      var reply := Perform(s, commands[i]);
      LawfulIsClean(s.View());
      OutcomeIsCarriedOut(before, s.View(), commands[i], reply);
      MarkedMore(before.trace, s.io.trace, commands[..i], commands[i], replies, reply, marks, !s.ktlsActive);
      RunOutcomeMore(old(s.View()), before, s.View(), commands[..i], commands[i], replies, reply);
      assert commands[..i] + [commands[i]] == commands[..i + 1];
      assert (replies + [reply])[..i] == replies;
      replies, marks := replies + [reply], marks + [|s.io.trace|];
    }
    assert commands[..|commands|] == commands;
    LawfulIsClean(s.View());
    CleanForgetsNobody(s.io.trace);
  }

  lemma OutcomeIsCarriedOut(s: Stream, t: Stream, c: Command, reply: Reply)
    requires Outcome(s, t, c, reply)
    ensures s.trace <= t.trace && CarriedOut(t.trace, |s.trace|, c, reply, !s.ktls)
  {
    hide CarriedOut, Remembered;
  }

  lemma NothingMarked(trace: seq<Event>, userspace: bool)
    ensures Marked(trace, [], [], [|trace|], userspace)
  {
    hide Spans;
  }
}
