/** `RecordReader`: the kTLS receive side as the source keeps it, in a two-byte alert buffer, its
    length and a sticky terminal state. Proved against the value-level reader of `RecordStream`. */
module RecordReader {
  import opened Basics
  import opened Records
  import opened RecordStream
  import opened Session
  import opened Trace
  import opened Waiters

  const IO_BUDGET := 32

  /** `recv_record`: turn the kernel's answer into a fragment, or into the error the read fails with. */
  function Received(answer: Result<Message, IoError>, capacity: nat): (r: Result<Input, IoError>)
    ensures r.Ok? <==> answer.Ok? && answer.value.RecordType().Ok? && |answer.value.payload| <= capacity
    ensures r.Ok? ==>
              && r.value == Fragment(answer.value.RecordType().value, answer.value.flags, answer.value.payload)
              && |r.value.payload| <= capacity
    ensures answer.Ok? && r.Err? ==> r.error.Kind() == InvalidData
    ensures answer.Err? ==> r == Err(answer.error)
  {
    match answer
    case Err(e) => Err(e)
    case Ok(m) =>
      match m.RecordType()
      case Err(e) => Err(e)
      case Ok(kind) =>
        if |m.payload| > capacity then Err(BadData("kTLS recvmsg exceeded its destination buffer"))
        else Ok(Fragment(kind, m.flags, m.payload))
  }

  /** What the reader is to make of one event: a fragment, an error that ends the connection, or
      nothing. Interruptions and a socket that is not readable yet are nothing. */
  function HeardOne(e: Event): seq<Input> {
    match e
    case KernelRecv(answer, capacity) =>
      (match Received(answer, capacity)
       case Ok(fragment) => [fragment]
       case Err(error) =>
         if error.Kind() == WouldBlock || error.Kind() == Interrupted then [] else [SocketError(error)])
    case KernelChecked(_, ReadSide, Broken(error)) => [SocketError(error)]
    case _ => []
  }

  function Heard(events: seq<Event>): seq<Input> {
    if events == [] then [] else Heard(events[..|events| - 1]) + HeardOne(events[|events| - 1])
  }

  lemma {:induction false} HeardMore(a: seq<Event>, b: seq<Event>)
    ensures Heard(a + b) == Heard(a) + Heard(b)
  {
    if b == [] {
      assert a + b == a;
    } else {
      var front, last := b[..|b| - 1], b[|b| - 1];
      assert a + b == (a + front) + [last];
      assert ((a + front) + [last])[..|a + front|] == a + front;
      HeardMore(a, front);
      assert (Heard(a) + Heard(front)) + HeardOne(last) == Heard(a) + (Heard(front) + HeardOne(last));
    }
  }

  /** Between two points of a trace, the reader has taken in exactly what was heard. */
  ghost predicate TookIn(before: seq<Event>, after: seq<Event>, inputs: seq<Input>, inputs': seq<Input>) {
    before <= after && inputs' == inputs + Heard(after[|before|..])
  }

  lemma TookInNothing(trace: seq<Event>, inputs: seq<Input>)
    ensures TookIn(trace, trace, inputs, inputs)
  {
    assert inputs + [] == inputs && trace[|trace|..] == [];
  }

  lemma TookInOne(before: seq<Event>, trace: seq<Event>, e: Event, inputs: seq<Input>, inputs': seq<Input>)
    requires TookIn(before, trace, inputs, inputs')
    ensures TookIn(before, trace + [e], inputs, inputs' + HeardOne(e))
  {
    hide HeardOne, Heard;
    HeardSingle(e);
    HeardMore(trace[|before|..], [e]);
    assert (trace + [e])[|before|..] == trace[|before|..] + [e];
    var a, b := Heard(trace[|before|..]), HeardOne(e);
    assert (inputs + a) + b == inputs + (a + b);
  }

  lemma HeardSingle(e: Event)
    ensures Heard([e]) == HeardOne(e)
  {
    assert Heard([]) == [] && [e][..0] == [];
    assert [] + HeardOne(e) == HeardOne(e);
  }

  lemma TookInMore(t0: seq<Event>, t1: seq<Event>, t2: seq<Event>, i0: seq<Input>, i1: seq<Input>, i2: seq<Input>)
    requires TookIn(t0, t1, i0, i1) && TookIn(t1, t2, i1, i2)
    ensures TookIn(t0, t2, i0, i2)
  {
    hide Heard;
    HeardMore(t1[|t0|..], t2[|t1|..]);
    assert t2[|t0|..] == t1[|t0|..] + t2[|t1|..];
    var a, b := Heard(t1[|t0|..]), Heard(t2[|t1|..]);
    assert (i0 + a) + b == i0 + (a + b);
  }

  /** Every receive since `from` was given this much room. */
  ghost predicate RecvAsked(trace: seq<Event>, from: nat, capacity: nat) {
    forall i | from <= i < |trace| && trace[i].KernelRecv? :: trace[i].capacity == capacity
  }

  /** The kernel answered with application data under metadata that is trusted, and it fits. */
  predicate DataMessage(e: Event, capacity: nat) {
    && e.KernelRecv? && e.answer.Ok?
    && var m := e.answer.value;
       && m.RecordType().Ok? && AppPiece(Fragment(m.RecordType().value, m.flags, m.payload))
       && 0 < |m.payload| <= capacity
  }

  function PayloadOf(e: Event): seq<byte> {
    if e.KernelRecv? && e.answer.Ok? then e.answer.value.payload else []
  }

  /** Event `i` of the trace is such a message, met by a live reader that is not inside an alert. */
  ghost predicate DataAt(before: seq<Event>, trace: seq<Event>, inputs: seq<Input>, capacity: nat, i: nat) {
    && |before| <= i < |trace| && DataMessage(trace[i], capacity)
    && After(INITIAL, inputs + Heard(trace[|before|..i])) == INITIAL
  }

  /** Data ends the poll, with exactly the payload that the kernel answered with. */
  ghost predicate DataDelivered(before: seq<Event>, trace: seq<Event>, inputs: seq<Input>, capacity: nat,
                                r: Poll<IoResult>, filled: seq<byte>, filled': seq<byte>) {
    forall i: nat | DataAt(before, trace, inputs, capacity, i) ::
      i == |trace| - 1 && Succeeds(r) && filled' == filled + PayloadOf(trace[i])
  }

  ghost predicate NoDataYet(before: seq<Event>, trace: seq<Event>, inputs: seq<Input>, capacity: nat) {
    forall i: nat :: !DataAt(before, trace, inputs, capacity, i)
  }

  lemma AskedNothing(trace: seq<Event>, inputs: seq<Input>, capacity: nat, r: Poll<IoResult>, filled: seq<byte>)
    ensures RecvAsked(trace, |trace|, capacity) && NoDataYet(trace, trace, inputs, capacity)
    ensures DataDelivered(trace, trace, inputs, capacity, r, filled, filled)
  {
  }

  /** One round: a receive with this much room, and whatever follows from it. */
  ghost predicate IsRound(trace: seq<Event>, trace': seq<Event>, capacity: nat) {
    && trace < trace' && trace'[|trace|].KernelRecv? && trace'[|trace|].capacity == capacity
    && forall i | |trace| < i < |trace'| :: !trace'[i].KernelRecv?
  }

  lemma RoundIsOn(trace: seq<Event>, trace': seq<Event>, capacity: nat)
    requires IsRound(trace, trace', capacity)
    ensures trace < trace'
  {
  }

  /** A receive on its own, or with a readiness check after it, is a round. */
  lemma RoundOfReceive(trace: seq<Event>, answer: Result<Message, IoError>, capacity: nat, rest: seq<Event>)
    requires forall i | 0 <= i < |rest| :: !rest[i].KernelRecv?
    ensures IsRound(trace, trace + [KernelRecv(answer, capacity)] + rest, capacity)
    ensures (trace + [KernelRecv(answer, capacity)] + rest)[|trace|] == KernelRecv(answer, capacity)
  {
    var t := trace + [KernelRecv(answer, capacity)] + rest;
    forall i | |trace| < i < |t| ensures !t[i].KernelRecv? {
      assert t[i] == rest[i - |trace| - 1];
    }
  }

  /** The round after a receive that failed. */
  lemma RoundOfError(s: ReaderState, trace: seq<Event>, answer: Result<Message, IoError>, capacity: nat, cx: Waker,
                     rest: seq<Event>, r: Option<Poll<IoResult>>)
    requires Received(answer, capacity).Err? && ErrorReply(Received(answer, capacity).error, cx, rest, r)
    ensures var t := trace + [KernelRecv(answer, capacity)] + rest;
            IsRound(trace, t, capacity) && RoundReply(s, t, cx, r) && !DataMessage(t[|trace|], capacity)
  {
    hide Received, IsRound;
    RoundOfReceive(trace, answer, capacity, rest);
  }

  /** The round after a receive that brought a fragment. */
  lemma RoundOfFragment(s: ReaderState, trace: seq<Event>, answer: Result<Message, IoError>, capacity: nat, cx: Waker,
                        r: Option<Poll<IoResult>>)
    requires Received(answer, capacity).Ok? && FragmentReply(s, Received(answer, capacity).value, r)
    ensures var t := trace + [KernelRecv(answer, capacity)];
            && IsRound(trace, t, capacity) && RoundReply(s, t, cx, r)
            && PayloadOf(t[|trace|]) == Received(answer, capacity).value.payload
            && (DataMessage(t[|trace|], capacity) && s == INITIAL ==>
                  r.Some? && Succeeds(r.value) && Exposed(s, Received(answer, capacity).value) == PayloadOf(t[|trace|]))
  {
    hide IsRound, Step, Exposed, Judge;
    RoundOfReceive(trace, answer, capacity, []);
    var t := trace + [KernelRecv(answer, capacity)];
    assert t + [] == t;
    if DataMessage(t[|trace|], capacity) {
      AppPiecePassesThrough(Received(answer, capacity).value);
      assert Payloads([Received(answer, capacity).value]) == Received(answer, capacity).value.payload + [];
    }
  }

  lemma AskedMore(before: seq<Event>, trace: seq<Event>, trace': seq<Event>, capacity: nat)
    requires before <= trace && RecvAsked(trace, |before|, capacity) && IsRound(trace, trace', capacity)
    ensures RecvAsked(trace', |before|, capacity)
  {
    forall i | |before| <= i < |trace'| && trace'[i].KernelRecv? ensures trace'[i].capacity == capacity {
      if i < |trace| {
        assert trace'[i] == trace[i];
      }
    }
  }

  /** The only place where a round can meet data is its receive. */
  lemma DataInRound(before: seq<Event>, trace: seq<Event>, trace': seq<Event>, inputs: seq<Input>, now: seq<Input>,
                    capacity: nat, i: nat)
    requires TookIn(before, trace, inputs, now) && IsRound(trace, trace', capacity)
    requires NoDataYet(before, trace, inputs, capacity) && DataAt(before, trace', inputs, capacity, i)
    ensures i == |trace| && DataMessage(trace'[|trace|], capacity) && After(INITIAL, now) == INITIAL
  {
    hide After, Heard, DataMessage;
    if i < |trace| {
      SameData(before, trace, trace', inputs, capacity, i);
    } else {
      DataIsReceived(trace'[i], capacity);
      assert trace'[|before|..i] == trace[|before|..];
    }
  }

  lemma SameData(before: seq<Event>, trace: seq<Event>, trace': seq<Event>, inputs: seq<Input>, capacity: nat, i: nat)
    requires trace <= trace' && i < |trace|
    ensures DataAt(before, trace', inputs, capacity, i) <==> DataAt(before, trace, inputs, capacity, i)
  {
    hide After, Heard, DataMessage;
    assert trace'[i] == trace[i];
    if |before| <= i {
      assert trace'[|before|..i] == trace[|before|..i];
    }
  }

  lemma DataIsReceived(e: Event, capacity: nat)
    ensures DataMessage(e, capacity) ==> e.KernelRecv?
  {
  }

  /** A round that settles the poll delivers its data, if it met any. */
  lemma RoundDelivers(before: seq<Event>, trace: seq<Event>, trace': seq<Event>, inputs: seq<Input>, now: seq<Input>,
                      capacity: nat, r: Poll<IoResult>, filled: seq<byte>, filled': seq<byte>)
    requires TookIn(before, trace, inputs, now) && IsRound(trace, trace', capacity)
    requires NoDataYet(before, trace, inputs, capacity)
    requires DataMessage(trace'[|trace|], capacity) && After(INITIAL, now) == INITIAL ==>
               |trace'| == |trace| + 1 && Succeeds(r) && filled' == filled + PayloadOf(trace'[|trace|])
    ensures DataDelivered(before, trace', inputs, capacity, r, filled, filled')
  {
    hide TookIn, IsRound, NoDataYet, DataAt, DataMessage, After;
    forall i: nat | DataAt(before, trace', inputs, capacity, i)
      ensures i == |trace'| - 1 && Succeeds(r) && filled' == filled + PayloadOf(trace'[i])
    {
      DataInRound(before, trace, trace', inputs, now, capacity, i);
    }
  }

  lemma RoundHasNoData(before: seq<Event>, trace: seq<Event>, trace': seq<Event>, inputs: seq<Input>, now: seq<Input>,
                       capacity: nat)
    requires TookIn(before, trace, inputs, now) && IsRound(trace, trace', capacity)
    requires NoDataYet(before, trace, inputs, capacity)
    requires !(DataMessage(trace'[|trace|], capacity) && After(INITIAL, now) == INITIAL)
    ensures NoDataYet(before, trace', inputs, capacity)
  {
    hide TookIn, IsRound, DataAt, DataMessage, After;
    if i: nat :| DataAt(before, trace', inputs, capacity, i) {
      DataInRound(before, trace, trace', inputs, now, capacity, i);
    }
  }

  /** Waking oneself is no receive. */
  lemma WokenMore(before: seq<Event>, trace: seq<Event>, cx: Waker, inputs: seq<Input>, capacity: nat, filled: seq<byte>)
    requires before <= trace && RecvAsked(trace, |before|, capacity) && NoDataYet(before, trace, inputs, capacity)
    ensures RecvAsked(trace + [SelfWoken(cx)], |before|, capacity)
    ensures DataDelivered(before, trace + [SelfWoken(cx)], inputs, capacity, Pending, filled, filled)
  {
    hide DataMessage, After, Heard;
    var more := trace + [SelfWoken(cx)];
    forall i: nat ensures !DataAt(before, more, inputs, capacity, i) {
      if i < |trace| {
        SameData(before, trace, more, inputs, capacity, i);
      } else if i == |trace| {
        DataIsReceived(more[i], capacity);
      }
    }
  }

  /** What one round must come to, by the last thing it did and the state it found the reader in: `None`
      to go round again. */
  ghost predicate RoundReply(s: ReaderState, trace: seq<Event>, cx: Waker, r: Option<Poll<IoResult>>) {
    && trace != []
    && match trace[|trace| - 1]
       case KernelRecv(answer, capacity) =>
         (match Received(answer, capacity)
          case Err(e) => if e.Kind() == Interrupted then r.None? else e.Kind() != WouldBlock && r == Some(Ready(Err(e)))
          case Ok(fragment) => FragmentReply(s, fragment, r))
       case KernelChecked(waker, dir, readiness) =>
         && waker == cx && dir == ReadSide
         && |trace| >= 2 && trace[|trace| - 2].KernelRecv?
         && trace[|trace| - 2].answer.Err? && trace[|trace| - 2].answer.error.Kind() == WouldBlock
         && r == (match readiness
                  case IsReady => None
                  case NotReady => Some(Pending)
                  case Broken(e) => Some(Ready(Err(e))))
       case _ => false
  }

  /** What has to follow a receive that failed with `e`: nothing after an interruption or an error of its
      own, the readiness check if it would have blocked. */
  ghost predicate ErrorReply(e: IoError, cx: Waker, rest: seq<Event>, r: Option<Poll<IoResult>>) {
    if e.Kind() == Interrupted then rest == [] && r.None?
    else if e.Kind() == WouldBlock then
      && |rest| == 1 && rest[0].KernelChecked? && rest[0].waker == cx && rest[0].dir == ReadSide
      && r == (match rest[0].readiness
               case IsReady => None
               case NotReady => Some(Pending)
               case Broken(error) => Some(Ready(Err(error))))
    else rest == [] && r == Some(Ready(Err(e)))
  }

  ghost predicate FragmentReply(s: ReaderState, fragment: Input, r: Option<Poll<IoResult>>) {
    match Step(s, fragment).terminal
    case None => if Exposed(s, fragment) == [] then r.None? else r.Some? && Succeeds(r.value)
    case Some(Closed) => r.Some? && Succeeds(r.value)
    case Some(Failed(e)) => r.Some? && Fails(r.value) && SameReport(r.value.value.error, e)
  }

  /** Registered with the reactor, or woken already after the whole budget was used up. */
  ghost predicate Reawakens(trace: seq<Event>, cx: Waker, calls: int) {
    && trace != []
    && (|| trace[|trace| - 1] == KernelChecked(cx, ReadSide, NotReady)
        || (trace[|trace| - 1] == SelfWoken(cx) && calls == IO_BUDGET))
  }

  class RecordReader {
    const alert: array<byte>
    var alertLen: nat
    var terminal: Option<Terminal>
    /** Everything this reader has been fed since the connection began. */
    ghost var inputs: seq<Input>

    ghost function View(): ReaderState
      reads this, alert
    {
      ReaderState(if terminal.None? && alertLen <= alert.Length then alert[..alertLen] else [], terminal)
    }

    ghost predicate Valid()
      reads this, alert
    {
      && alert.Length == 2 && alertLen <= 2
      && View() == After(INITIAL, inputs)
      && (terminal.None? ==> alertLen <= 1)
      && (terminal.Some? && terminal.value.Failed? ==> terminal.value.error == Duplicate(terminal.value.error))
    }

    constructor ()
      ensures Valid() && inputs == [] && fresh(alert)
    {
      alert := new byte[2];
      alertLen := 0;
      terminal := None;
      inputs := [];
    }

    method Finished() returns (r: Option<Result<Outcome, IoError>>)
      requires Valid()
      ensures r.None? <==> terminal.None?
      ensures terminal == Some(Closed) ==> r == Some(Ok(Eof))
      ensures terminal.Some? && terminal.value.Failed? ==>
                r.value.Err? && r.value.error == terminal.value.error
    {
      match terminal
      case None => r := None;
      case Some(Closed) => r := Some(Ok(Eof));
      case Some(Failed(e)) => r := Some(Err(Duplicate(e)));
    }

    /** Latch a copy of the error and hand the original to the caller. */
    method Fail(e: IoError) returns (r: IoError)
      requires Valid() && terminal.None?
      modifies this`terminal, this`inputs
      ensures Valid() && r == e
      ensures inputs == old(inputs) + [SocketError(e)]
      ensures terminal == Some(Failed(Duplicate(e)))
    {
      terminal := Some(Failed(Duplicate(e)));
      FeedOne(INITIAL, inputs, SocketError(e));
      inputs := inputs + [SocketError(e)];
      r := e;
    }

    /** One fragment. The result is `Data` exactly when its bytes become visible. */
    method Consume(kind: Option<byte>, flags: Flags, payload: seq<byte>) returns (r: Result<Outcome, IoError>)
      requires Valid()
      modifies this, alert
      ensures Valid()
      ensures inputs == old(inputs) + [Fragment(kind, flags, payload)]
      ensures Exposed(old(View()), Fragment(kind, flags, payload)) == if r.Ok? && r.value.Data? then payload else []
      ensures r.Ok? && r.value.Data? ==> r.value.n == |payload| && payload != [] && terminal.None?
      ensures r == Ok(More) ==> terminal.None?
      ensures r == Ok(Eof) <==> terminal == Some(Closed)
      ensures r.Err? <==> terminal.Some? && terminal.value.Failed?
      ensures r.Err? ==> SameReport(r.error, terminal.value.error)
    {
      hide After, Delivered, Judge;
      ghost var fragment := Fragment(kind, flags, payload);
      FeedOne(INITIAL, inputs, fragment);
      inputs := inputs + [fragment];
      var done := terminal;
      if done.Some? {
        match done.value
        case Closed => r := Ok(Eof);
        case Failed(e) => r := Err(Duplicate(e));
      } else {
        JudgeFacts(View(), kind, flags, payload);
        r := ConsumeLive(kind, flags, payload);
      }
    }

    /** The part of `consume` behind the terminal check. */
    method ConsumeLive(kind: Option<byte>, flags: Flags, payload: seq<byte>) returns (r: Result<Outcome, IoError>)
      requires alert.Length == 2 && alertLen <= 1 && terminal.None?
      modifies this`alertLen, this`terminal, alert
      ensures alertLen <= 2
      ensures Verdict(Judge(old(View()), kind, flags, payload), r)
    {
      assert alertLen == 0 <==> View().alert == [];
      if flags.ctrunc || flags.trunc {
        r := Reject("truncated kTLS recvmsg payload or ancillary data");
      } else if payload == [] {
        if kind == Some(APPLICATION_DATA) && alertLen == 0 {
          r := Ok(More);
        } else if kind.Some? || flags.eor {
          r := Reject("empty kTLS record is unsupported");
        } else {
          r := FailWith(Custom(UnexpectedEof, "kTLS peer closed without close_notify", 0));
        }
      } else {
        var t := if kind.Some? then kind.value else APPLICATION_DATA;
        if alertLen != 0 && t != ALERT {
          r := Reject("kTLS alert interrupted by another record type");
        } else if t == APPLICATION_DATA {
          r := Ok(Data(|payload|));
        } else if t == ALERT {
          r := ConsumeAlert(flags, payload);
        } else if t == HANDSHAKE {
          r := FailWith(Custom(Unsupported, HANDSHAKE_UNSUPPORTED, 0));
        } else {
          r := Reject("unsupported kTLS record type");
        }
      }
    }

    /** The reader is in the state that the judgement calls for, and reports it. */
    ghost predicate Verdict(judgement: Result<(ReaderState, Outcome), IoError>, r: Result<Outcome, IoError>)
      reads this, alert
    {
      match judgement
      case Ok((s, outcome)) => View() == s && r == Ok(outcome) && (s.terminal.None? ==> alertLen <= 1)
      case Err(e) => r == Err(e) && terminal == Some(Failed(Duplicate(e)))
    }

    method FailWith(e: IoError) returns (r: Result<Outcome, IoError>)
      modifies this`terminal
      ensures r == Err(e) && terminal == Some(Failed(Duplicate(e)))
    {
      terminal := Some(Failed(Duplicate(e)));
      r := Err(e);
    }

    method Reject(message: string) returns (r: Result<Outcome, IoError>)
      modifies this`terminal
      ensures r == Err(BadData(message)) && terminal == Some(Failed(Duplicate(BadData(message))))
    {
      r := FailWith(BadData(message));
    }

    /** Save the alert bytes in the fixed buffer; only a complete two-byte close ends the stream. */
    method ConsumeAlert(flags: Flags, payload: seq<byte>) returns (r: Result<Outcome, IoError>)
      requires alert.Length == 2 && alertLen <= 1 && terminal.None? && payload != []
      modifies this`alertLen, this`terminal, alert
      ensures alertLen <= 2
      ensures Verdict(JudgeAlert(old(View()), flags, payload), r)
    {
      if |payload| > alert.Length - alertLen {
        r := Reject("oversized kTLS alert");
        return;
      }
      ghost var held := alert[..alertLen] + payload;
      var end := alertLen + |payload|;
      forall i | 0 <= i < |payload| {
        alert[alertLen + i] := payload[i];
      }
      alertLen := end;
      assert alert[..alertLen] == held;
      if !flags.eor {
        if alertLen == alert.Length {
          r := Reject("kTLS alert exceeds two bytes without end-of-record");
        } else {
          r := Ok(More);
        }
        return;
      }
      if alertLen != alert.Length {
        r := Reject("truncated kTLS alert at end-of-record");
        return;
      }
      if (alert[0] == 1 || alert[0] == 2) && alert[1] == 0 {
        terminal := Some(Closed);
        r := Ok(Eof);
      } else {
        r := Reject("invalid or non-close kTLS alert");
      }
    }

    /** One kTLS read poll, for any answers of the kernel and any buffer. */
    method PollRead(io: Session, cx: Waker, buf: ReadBuf) returns (r: Poll<IoResult>)
      requires Valid() && buf.Valid() && buf.data != alert && !Observe(io.trace).unheard
      modifies this, alert, io`clock, io`trace, io`events, buf`filled, buf.data
      ensures Valid() && buf.Valid()
      ensures old(io.trace) <= io.trace && Alike(Observe(io.trace), Observe(old(io.trace)))
      // the reader takes in exactly what the kernel answered, and the caller sees its application bytes
      ensures TookIn(old(io.trace), io.trace, old(inputs), inputs)
      ensures old(buf.Filled()) <= buf.Filled()
      ensures Delivered(INITIAL, inputs) == Delivered(INITIAL, old(inputs)) + buf.Filled()[old(buf.filled)..]
      ensures RecvAsked(io.trace, |old(io.trace)|, old(buf.Remaining()))
      ensures DataDelivered(old(io.trace), io.trace, old(inputs), old(buf.Remaining()), r, old(buf.Filled()), buf.Filled())
      ensures old(terminal).None? && old(buf.Remaining()) == 0 ==> Succeeds(r) && io.trace == old(io.trace)
      // a zero-byte success in a non-empty buffer is an authenticated close_notify, and nothing else
      ensures Succeeds(r) && old(buf.Remaining()) > 0 ==>
                (buf.filled == old(buf.filled) <==> terminal == Some(Closed))
      ensures Fails(r) ==>
                && terminal.Some? && terminal.value.Failed? && SameReport(r.value.error, terminal.value.error)
                && buf.filled == old(buf.filled)
      // a parked poll has consumed no data and will be polled again
      ensures r.Pending? ==>
                && terminal.None? && buf.filled == old(buf.filled)
                && old(io.trace) < io.trace && Reawakens(io.trace, cx, io.clock - old(io.clock))
      // once terminal, always the same answer and no system call at all
      ensures old(terminal).Some? ==>
                && inputs == old(inputs) && io.trace == old(io.trace) && terminal == old(terminal)
                && buf.filled == old(buf.filled)
                && r.Ready? && (r.value.Ok? <==> terminal == Some(Closed))
      ensures old(io.clock) <= io.clock <= old(io.clock) + IO_BUDGET
      ensures io.events <= old(io.events)
    {
      hide After, Delivered, Observe, TookIn, RecvAsked, NoDataYet, DataDelivered, IsRound, RoundReply;
      hide DataMessage, PayloadOf, SameReport, Duplicate;
      TookInNothing(io.trace, inputs);
      AskedNothing(io.trace, inputs, buf.Remaining(), Ready(Ok(Unit)), buf.Filled());
      var finished := Finished();
      if finished.Some? {
        r := Ready(if finished.value.Ok? then Ok(Unit) else Err(finished.value.error));
        AskedNothing(io.trace, inputs, buf.Remaining(), r, buf.Filled());
        return;
      }
      if buf.Remaining() == 0 {
        return Ready(Ok(Unit));
      }
      r := ReceiveLoop(io, cx, buf);
    }

    /** At most `IO_BUDGET` receives, until one settles the poll. */
    method ReceiveLoop(io: Session, cx: Waker, buf: ReadBuf) returns (r: Poll<IoResult>)
      requires Valid() && terminal.None? && buf.Valid() && buf.data != alert && buf.Remaining() > 0
      requires !Observe(io.trace).unheard
      modifies this, alert, io`clock, io`trace, io`events, buf`filled, buf.data
      ensures Valid() && buf.Valid()
      ensures old(io.trace) < io.trace && Alike(Observe(io.trace), Observe(old(io.trace)))
      ensures TookIn(old(io.trace), io.trace, old(inputs), inputs)
      ensures old(buf.Filled()) <= buf.Filled()
      ensures Delivered(INITIAL, inputs) == Delivered(INITIAL, old(inputs)) + buf.Filled()[old(buf.filled)..]
      ensures RecvAsked(io.trace, |old(io.trace)|, old(buf.Remaining()))
      ensures DataDelivered(old(io.trace), io.trace, old(inputs), old(buf.Remaining()), r, old(buf.Filled()), buf.Filled())
      ensures Succeeds(r) ==> (buf.filled == old(buf.filled) <==> terminal == Some(Closed))
      ensures Fails(r) ==>
                terminal.Some? && terminal.value.Failed? && SameReport(r.value.error, terminal.value.error)
      ensures !Succeeds(r) ==> buf.filled == old(buf.filled)
      ensures r.Pending? ==> terminal.None? && Reawakens(io.trace, cx, io.clock - old(io.clock))
      ensures old(io.clock) <= io.clock <= old(io.clock) + IO_BUDGET
      ensures io.events <= old(io.events)
    {
      hide After, Delivered, Observe, TookIn, RecvAsked, NoDataYet, DataDelivered, IsRound, RoundReply;
      hide DataMessage, PayloadOf, SameReport, Duplicate;
      TookInNothing(io.trace, inputs);
      AskedNothing(io.trace, inputs, buf.Remaining(), Ready(Ok(Unit)), buf.Filled());
      for n := 0 to IO_BUDGET
        invariant Valid() && buf.Valid() && terminal.None?
        invariant old(io.trace) <= io.trace && Alike(Observe(io.trace), Observe(old(io.trace)))
        invariant TookIn(old(io.trace), io.trace, old(inputs), inputs)
        invariant RecvAsked(io.trace, |old(io.trace)|, old(buf.Remaining()))
        invariant NoDataYet(old(io.trace), io.trace, old(inputs), old(buf.Remaining()))
        invariant buf.filled == old(buf.filled) && buf.Filled() == old(buf.Filled())
        invariant Delivered(INITIAL, inputs) == Delivered(INITIAL, old(inputs))
        invariant io.clock == old(io.clock) + n && io.events <= old(io.events)
      {
        ghost var trace, taken := io.trace, inputs;
        var settled := PollOnce(io, cx, buf);
        RoundIsOn(trace, io.trace, old(buf.Remaining()));
        TookInMore(old(io.trace), trace, io.trace, old(inputs), taken, inputs);
        AskedMore(old(io.trace), trace, io.trace, old(buf.Remaining()));
        if settled.Some? {
          RoundDelivers(old(io.trace), trace, io.trace, old(inputs), taken, old(buf.Remaining()), settled.value,
                        old(buf.Filled()), buf.Filled());
          return settled.value;
        }
        RoundHasNoData(old(io.trace), trace, io.trace, old(inputs), taken, old(buf.Remaining()));
      }
      TookInOne(old(io.trace), io.trace, SelfWoken(cx), old(inputs), inputs);
      assert inputs + HeardOne(SelfWoken(cx)) == inputs;
      WokenMore(old(io.trace), io.trace, cx, old(inputs), old(buf.Remaining()), buf.Filled());
      io.SelfWake(cx);
      r := Pending;
    }

    /** One `recvmsg` and what follows from it: the poll's answer, or `None` to go round again. */
    method PollOnce(io: Session, cx: Waker, buf: ReadBuf) returns (r: Option<Poll<IoResult>>)
      requires Valid() && terminal.None? && buf.Valid() && buf.data != alert && buf.Remaining() > 0
      requires !Observe(io.trace).unheard
      modifies this, alert, io`clock, io`trace, io`events, buf`filled, buf.data
      ensures Valid() && buf.Valid()
      ensures old(io.trace) < io.trace && Alike(Observe(io.trace), Observe(old(io.trace)))
      ensures TookIn(old(io.trace), io.trace, old(inputs), inputs)
      ensures old(buf.Filled()) <= buf.Filled()
      ensures Delivered(INITIAL, inputs) == Delivered(INITIAL, old(inputs)) + buf.Filled()[old(buf.filled)..]
      ensures !(r.Some? && Succeeds(r.value)) ==> buf.filled == old(buf.filled)
      ensures IsRound(old(io.trace), io.trace, old(buf.Remaining()))
      ensures RoundReply(old(View()), io.trace, cx, r)
      // data is told from the kernel's answer and the room there was, whatever the receive was given
      ensures DataMessage(io.trace[|old(io.trace)|], old(buf.Remaining())) && old(alertLen) == 0 ==>
                && |io.trace| == |old(io.trace)| + 1 && r.Some? && Succeeds(r.value)
                && buf.Filled() == old(buf.Filled()) + PayloadOf(io.trace[|old(io.trace)|])
      ensures r.None? ==> terminal.None?
      ensures r.Some? && Succeeds(r.value) ==> (buf.filled == old(buf.filled) <==> terminal == Some(Closed))
      ensures r.Some? && Fails(r.value) ==>
                terminal.Some? && terminal.value.Failed? && SameReport(r.value.value.error, terminal.value.error)
      ensures r == Some(Pending) ==>
                terminal.None? && io.trace[|io.trace| - 1] == KernelChecked(cx, ReadSide, NotReady)
      ensures io.clock == old(io.clock) + 1 && io.events <= old(io.events)
    {
      hide After, Delivered, Observe, Received, TookIn, IsRound, RoundReply, ErrorReply, DataMessage, Step, Exposed, Judge;
      ghost var trace, taken, state := io.trace, inputs, View();
      var room := buf.Remaining();
      var answer := io.Recv(room);
      var received := Received(answer, room);
      TookInNothing(trace, taken);
      TookInOne(trace, trace, KernelRecv(answer, room), taken, taken);
      match received {
        case Ok(fragment) =>
          var outcome := Accept(fragment, buf);
          r := match outcome {
            case Ok(Data(_)) => Some(Ready(Ok(Unit)))
            case Ok(Eof) => Some(Ready(Ok(Unit)))
            case Ok(More) => None
            case Err(e) => Some(Ready(Err(e)))
          };
          RoundOfFragment(state, trace, answer, room, cx, r);
        case Err(e) =>
          ghost var asked := io.trace;
          r := AfterError(io, cx, e, trace);
          RoundOfError(state, trace, answer, room, cx, io.trace[|asked|..], r);
          assert io.trace == asked + io.trace[|asked|..];
      }
    }

    /** What to do about a `recvmsg` that failed. */
    method AfterError(io: Session, cx: Waker, e: IoError, ghost before: seq<Event>) returns (r: Option<Poll<IoResult>>)
      requires Valid() && terminal.None? && !Observe(io.trace).unheard
      requires TookIn(before, io.trace, inputs,
                      inputs + if e.Kind() == WouldBlock || e.Kind() == Interrupted then [] else [SocketError(e)])
      modifies this`terminal, this`inputs, io`trace, io`events
      ensures Valid()
      ensures old(io.trace) <= io.trace && Alike(Observe(io.trace), Observe(old(io.trace)))
      ensures TookIn(before, io.trace, old(inputs), inputs)
      ensures Delivered(INITIAL, inputs) == Delivered(INITIAL, old(inputs))
      ensures ErrorReply(e, cx, io.trace[|old(io.trace)|..], r)
      ensures match r
              case None => terminal.None?
              case Some(Pending) =>
                terminal.None? && io.trace != [] && io.trace[|io.trace| - 1] == KernelChecked(cx, ReadSide, NotReady)
              case Some(Ready(answer)) =>
                answer.Err? && terminal.Some? && terminal.value.Failed? && SameReport(answer.error, terminal.value.error)
      ensures io.events <= old(io.events)
    {
      hide After, Delivered, Observe, TookIn;
      assert inputs + [] == inputs;
      if e.Kind() == Interrupted {
        r := None;
      } else if e.Kind() == WouldBlock {
        ghost var trace := io.trace;
        var readiness := io.PollKernelReady(cx, ReadSide);
        TookInOne(before, trace, KernelChecked(cx, ReadSide, readiness), inputs, inputs);
        match readiness {
          case IsReady => r := None;
          case NotReady => r := Some(Pending);
          case Broken(error) =>
            var failed := FailPoll(error);
            r := Some(failed);
        }
      } else {
        var failed := FailPoll(e);
        r := Some(failed);
      }
    }

    /** Place a fragment in the unfilled region, judge it, and make it visible only if it is data. */
    method Accept(fragment: Input, buf: ReadBuf) returns (r: Result<Outcome, IoError>)
      requires Valid() && terminal.None? && buf.Valid() && buf.data != alert
      requires fragment.Fragment? && |fragment.payload| <= buf.Remaining()
      modifies this, alert, buf`filled, buf.data
      ensures Valid() && buf.Valid()
      ensures inputs == old(inputs) + [fragment]
      ensures buf.Filled() == old(buf.Filled()) + if r.Ok? && r.value.Data? then fragment.payload else []
      ensures Delivered(INITIAL, inputs) == Delivered(INITIAL, old(inputs)) + if r.Ok? && r.value.Data? then fragment.payload else []
      ensures r.Ok? && r.value.Data? ==> fragment.payload != [] && terminal.None?
      ensures View() == Step(old(View()), fragment)
      ensures Exposed(old(View()), fragment) == if r.Ok? && r.value.Data? then fragment.payload else []
      ensures r == Ok(More) ==> terminal.None?
      ensures r == Ok(Eof) <==> terminal == Some(Closed)
      ensures r.Err? ==> terminal.Some? && terminal.value.Failed? && SameReport(r.error, terminal.value.error)
    {
      hide After, Delivered, Exposed;
      FeedOne(INITIAL, inputs, fragment);
      buf.Scribble(fragment.payload);
      r := Consume(fragment.kind, fragment.flags, fragment.payload);
      if r.Ok? && r.value.Data? {
        buf.Advance(r.value.n);
      }
    }

    method FailPoll(e: IoError) returns (r: Poll<IoResult>)
      requires Valid() && terminal.None?
      modifies this`terminal, this`inputs
      ensures Valid() && r == Ready(Err(e))
      ensures inputs == old(inputs) + [SocketError(e)]
      ensures Delivered(INITIAL, inputs) == Delivered(INITIAL, old(inputs))
      ensures terminal == Some(Failed(Duplicate(e)))
    {
      FeedOne(INITIAL, inputs, SocketError(e));
      var error := Fail(e);
      r := Ready(Err(error));
    }
  }
}
