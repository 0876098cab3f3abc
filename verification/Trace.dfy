/** What one stream does at its foreign boundary, event by event, and the rules it must follow there.

    A trace is checked by a monitor that folds over it. The monitor knows nothing about the stream's
    own fields: it only sees the calls into libssl, the kernel and the reactor, and their answers. */
module Trace {
  import opened Basics
  import opened Records
  import opened Waiters

  const MAX_PLAINTEXT := 16384

  datatype Direction = ReadSide | WriteSide

  const ERR_LIB_SSL := 16
  const SSL_R_UNEXPECTED_EOF_WHILE_READING := 509

  /** The answer of `SSL_get_error`, with what the error queue and errno held at that moment. */
  datatype SslCode =
    | WantRead
    | WantWrite
    | ZeroReturn
    | Syscall(errno: Option<int>)
    | Protocol(library: int, reason: int)
    | OtherCode(code: int)
  {
    function Wanted(): Option<Direction> {
      match this
      case WantRead => Some(ReadSide)
      case WantWrite => Some(WriteSide)
      case _ => None
    }

    /** `ssl_io_error`: a transport that ends without close_notify is `UnexpectedEof`, whichever way
        this version of AWS-LC reports it. */
    function Report(): (e: IoError)
      ensures e.Kind() == UnexpectedEof <==>
                || this == Syscall(None) || this == Syscall(Some(0))
                || this == Protocol(ERR_LIB_SSL, SSL_R_UNEXPECTED_EOF_WHILE_READING)
      ensures e.RawOsError().Some? <==> Syscall? && errno.Some? && errno.value != 0
      ensures e.RawOsError().Some? ==> e == Os(errno.value)
      ensures e.RawOsError().None? && e.Kind() != UnexpectedEof ==> e.Kind() == OTHER
    {
      var eof := Custom(UnexpectedEof, "TLS peer closed without close_notify", 0);
      match this
      case Syscall(errno) => if errno.Some? && errno.value != 0 then Os(errno.value) else eof
      case Protocol(library, reason) =>
        if library == ERR_LIB_SSL && reason == SSL_R_UNEXPECTED_EOF_WHILE_READING then eof
        else Custom(OTHER, "ssl_error", 0)
      case _ => Custom(OTHER, "ssl_error", 0)
    }
  }

  /** The answer of `poll_read_ready` or `poll_write_ready`. */
  datatype Readiness = NotReady | IsReady | Broken(error: IoError)

  datatype Operation = Writing | Reading | Closing

  datatype Event =
    | SslWrite(data: seq<byte>, n: int, code: SslCode)
    | SslRead(capacity: nat, got: seq<byte>, code: SslCode)
    | SslShutdown(ret: int, code: SslCode)
    | Registered(reader: bool, waker: Waker)
    | Checked(dir: Direction, readiness: Readiness)
    // both slots were taken and whoever was in them woken, by a poll or by the reactor between polls
    | Notified(poller: bool)
    | KernelWrite(data: seq<byte>, written: Result<nat, IoError>)
    | KernelAlert(sent: Result<nat, IoError>)
    | KernelRecv(answer: Result<Message, IoError>, capacity: nat)
    | KernelChecked(waker: Waker, dir: Direction, readiness: Readiness)
    | SelfWoken(waker: Waker)
    | TcpShutdown(done: IoResult)

  /** Progress towards parking: a WANT, then the registration, then the readiness check. */
  datatype Phase =
    | Busy
    | Wanting(op: Operation, dir: Direction)
    | Waiting(op: Operation, dir: Direction)
    | AlertBlocked

  datatype Monitor = Monitor(
    committed: seq<byte>,         // plaintext whose write completed, in order
    blocked: Option<seq<byte>>,   // the plaintext libssl is in the middle of
    short: nat,                   // bytes of it that a short answer to a retry did take
    wire: seq<Record>,            // records handed to the peer
    closing: bool,                // a close_notify has been attempted
    closed: bool,                 // and accepted
    failed: bool,                 // a write-side operation has failed for good
    cause: Option<IoError>,       // with this error
    unheard: bool,                // and those who wait have not been told yet
    received: seq<byte>,          // plaintext libssl has handed out, in order
    slots: Slots,                 // who waits behind the shared waker
    woken: seq<Waker>,            // who has been woken through it, in order
    phase: Phase,
    ok: bool)                     // no rule has been broken so far

  const START := Monitor([], None, 0, [], false, false, false, None, false, [], NOBODY, [], Busy, true)

  function CloseNotifySent(n: nat): seq<Record> {
    if n == 0 then [] else [Record(ALERT, CLOSE_NOTIFY[..Min(n, 2)])]
  }

  /** `check_close_notify_write`: only both bytes at once will do. */
  function CheckCloseNotifyWrite(sent: nat): (r: IoResult)
    ensures r.Ok? <==> sent == 2
    ensures r.Err? ==> r.error.Kind() == if sent == 0 then WriteZero else InvalidData
  {
    if sent == 2 then Ok(Unit)
    else if sent == 0 then Err(Custom(WriteZero, "kTLS close_notify send made no progress", 0))
    else Err(BadData("partial or invalid kTLS close_notify send; connection cannot be reused"))
  }

  /** Did this attempt to send the alert end it with an error? A send that would block does not; the
      readiness poll after it may. */
  predicate AlertFailed(sent: Result<nat, IoError>) {
    match sent
    case Ok(n) => CheckCloseNotifyWrite(n).Err?
    case Err(e) => e.Kind() != WouldBlock && e.Kind() != Interrupted
  }

  /** May the stream do `e` now? */
  predicate Allowed(m: Monitor, e: Event) {
    // a failure is announced before anything else happens
    && (m.unheard ==> e == Notified(true))
    && AllowedNext(m, e)
  }

  predicate AllowedNext(m: Monitor, e: Event) {
    match e
    case SslWrite(data, n, code) =>
      // never after a failure or a close attempt, one record at most, and a blocked write is retried
      // with the very same plaintext
      && !m.failed && !m.closing && !m.phase.Waiting?
      && 0 < |data| <= MAX_PLAINTEXT && n <= |data|
      && (m.blocked.Some? ==> data == m.blocked.value)
    case SslRead(_, _, _) => !m.failed && !m.phase.Waiting?
    case SslShutdown(_, _) => !m.failed && !m.closed && m.blocked.None? && !m.phase.Waiting?
    case Registered(_, _) => !m.failed && m.phase.Wanting?
    case Checked(dir, _) => !m.failed && m.phase.Waiting? && m.phase.dir == dir
    case KernelWrite(data, written) =>
      !m.failed && !m.closing && (written.Ok? ==> written.value <= |data|)
    case KernelAlert(sent) => !m.failed && !m.closed && m.blocked.None? && (sent.Ok? ==> sent.value <= 2)
    case TcpShutdown(_) => !m.failed && m.closed
    case Notified(_) => !m.phase.Waiting?
    case KernelRecv(_, _) | KernelChecked(_, _, _) | SelfWoken(_) => true
  }

  /** The error that an event brings, if it brings one. */
  function ErrorOf(e: Event): Option<IoError> {
    match e
    case SslWrite(_, _, code) => Some(code.Report())
    case SslRead(_, _, code) => Some(code.Report())
    case SslShutdown(_, code) => Some(code.Report())
    case Checked(_, readiness) => if readiness.Broken? then Some(readiness.error) else None
    case KernelChecked(_, _, readiness) => if readiness.Broken? then Some(readiness.error) else None
    case KernelWrite(_, written) => if written.Err? then Some(written.error) else None
    case KernelAlert(sent) => if sent.Err? then Some(sent.error) else SendError(sent.value)
    case TcpShutdown(done) => if done.Err? then Some(done.error) else None
    case _ => None
  }

  function SendError(sent: nat): Option<IoError> {
    var checked := CheckCloseNotifyWrite(sent);
    if checked.Err? then Some(checked.error) else None
  }

  /** What an allowed event amounts to. */
  function Effect(m: Monitor, e: Event): (next: Monitor)
    requires Allowed(m, e)
    ensures next.ok == m.ok && next.cause == m.cause
  {
    match e
    case SslWrite(data, n, code) =>
      var m := m.(phase := Busy);
      if n > 0 then
        var gone := m.(committed := m.committed + data[..n], wire := m.wire + [Record(APPLICATION_DATA, data[..n])]);
        if m.blocked.Some? && n < |data| then gone.(failed := true, short := n)
        else gone.(blocked := None)
      else if code.Wanted().Some? then
        m.(blocked := Some(data), phase := Wanting(Writing, code.Wanted().value))
      else m.(failed := true)
    case SslRead(_, got, code) =>
      var m := m.(phase := Busy, received := m.received + got);
      if got == [] && code.Wanted().Some? then m.(phase := Wanting(Reading, code.Wanted().value)) else m
    case SslShutdown(ret, code) =>
      var m := m.(phase := Busy, closing := true);
      if ret >= 0 then m.(closed := true, wire := m.wire + CloseNotifySent(2))
      else if code.Wanted().Some? then m.(phase := Wanting(Closing, code.Wanted().value))
      else m.(failed := true)
    case Registered(reader, waker) =>
      m.(phase := Waiting(m.phase.op, m.phase.dir), slots := m.slots[SlotOf(reader) := Some(waker)])
    case Checked(_, readiness) =>
      m.(phase := Busy, failed := readiness.Broken? && !m.phase.op.Reading?)
    case Notified(_) =>
      m.(phase := Busy, slots := NOBODY, woken := m.woken + Occupied(m.slots))
    case KernelWrite(data, written) =>
      var m := m.(phase := Busy);
      if written.Ok? then
        m.(committed := m.committed + data[..written.value],
           wire := m.wire + [Record(APPLICATION_DATA, data[..written.value])])
      else m
    case KernelAlert(sent) =>
      var m := m.(closing := true, failed := AlertFailed(sent));
      if sent.Ok? then m.(phase := Busy, closed := sent.value == 2, wire := m.wire + CloseNotifySent(sent.value))
      else m.(phase := AlertBlocked)
    case KernelChecked(_, dir, readiness) =>
      m.(phase := Busy, failed := m.failed || (readiness.Broken? && dir == WriteSide && m.phase == AlertBlocked))
    case TcpShutdown(done) => m.(phase := Busy, failed := done.Err?)
    case KernelRecv(_, _) | SelfWoken(_) => m.(phase := Busy)
  }

  function Observe1(m: Monitor, e: Event): Monitor {
    if !Allowed(m, e) then m.(ok := false)
    else
      var next := Effect(m, e);
      if next.failed && !m.failed then next.(unheard := true, cause := ErrorOf(e)) else next.(unheard := false)
  }

  function Observe(trace: seq<Event>): Monitor {
    if trace == [] then START
    else Observe1(Observe(trace[..|trace| - 1]), trace[|trace| - 1])
  }

  lemma ObserveMore(trace: seq<Event>, e: Event)
    ensures Observe(trace + [e]) == Observe1(Observe(trace), e)
  {
    assert (trace + [e])[..|trace|] == trace;
  }

  /** Equal but for the progress towards parking, which has not been taken up since. */
  predicate Alike(after: Monitor, before: Monitor) {
    after.(phase := Busy) == before.(phase := Busy) && (after.phase.Waiting? ==> before.phase.Waiting?)
  }

  /** A received message and a self-wake tell the monitor nothing. */
  lemma Indifferent(m: Monitor, e: Event)
    requires (e.KernelRecv? || e.SelfWoken?) && !m.unheard
    ensures Alike(Observe1(m, e), m)
  {
  }

  // Polls, as stretches of a trace.

  /** What a userspace poll of one half, called with waker `cx`, does at the boundary. */
  predicate OfPoll(e: Event, reader: bool, cx: Waker) {
    match e
    case SslWrite(_, _, _) | SslRead(_, _, _) | SslShutdown(_, _) | Checked(_, _) => true
    case Registered(half, waker) => half == reader && waker == cx
    case Notified(poller) => poller
    case _ => false
  }

  /** Everything from `from` on was done by such a poll. */
  predicate Does(trace: seq<Event>, from: nat, reader: bool, cx: Waker) {
    from <= |trace| && forall i | from <= i < |trace| :: OfPoll(trace[i], reader, cx)
  }

  predicate FoundNothing(e: Event) {
    e.Checked? && e.readiness.NotReady?
  }

  /** A userspace poll returns `Pending` exactly when the last thing it did was a readiness check that
      found nothing. */
  predicate IsPoll(trace: seq<Event>, from: nat, reader: bool, cx: Waker, pending: bool) {
    && Does(trace, from, reader, cx)
    && (pending <==> from < |trace| && FoundNothing(trace[|trace| - 1]))
  }

  lemma PollMore(t: seq<Event>, u: seq<Event>, from: nat, reader: bool, cx: Waker, pending: bool)
    requires t < u && Does(t, from, reader, cx) && IsPoll(u, |t|, reader, cx, pending)
    ensures IsPoll(u, from, reader, cx, pending)
  {
    hide OfPoll;
    forall i | from <= i < |u| ensures OfPoll(u[i], reader, cx) {
      if i < |t| {
        assert u[i] == t[i];
      }
    }
  }

  /** One poll of a run: whose, with which waker, which stretch of the trace, and whether it returned
      `Pending`. */
  datatype Note = Note(reader: bool, waker: Waker, from: nat, upto: nat, pending: bool)

  /** A note is about a userspace poll that did what it says. */
  predicate IsNote(trace: seq<Event>, n: Note) {
    && n.from <= n.upto <= |trace|
    && !Observe(trace[..n.from]).phase.Waiting? && !Observe(trace[..n.upto]).phase.Waiting?
    && IsPoll(trace[..n.upto], n.from, n.reader, n.waker, n.pending)
  }

  /** The polls of a run, in order. */
  predicate Logged(trace: seq<Event>, notes: seq<Note>) {
    forall i | 0 <= i < |notes| :: IsNote(trace, notes[i]) && (i > 0 ==> notes[i - 1].upto <= notes[i].from)
  }

  // What the caller of a poll must be told, by the last thing the poll did.

  /** A userspace read ends with bytes, with the authenticated end of the stream, with a fatal code, with
      a reactor that fails, or with nothing ready. An `SSL_read` that asks to wait never ends it. */
  ghost predicate ReadReply(trace: seq<Event>, capacity: nat, r: Poll<IoResult>) {
    && trace != []
    && match trace[|trace| - 1]
       case SslRead(asked, got, code) =>
         && asked == capacity
         && (if got != [] || code == ZeroReturn then Succeeds(r)
             else code.Wanted().None? && r == Ready(Err(code.Report())))
       case Checked(_, readiness) =>
         && |trace| >= 3 && trace[|trace| - 3].SslRead? && trace[|trace| - 3].capacity == capacity
         && !readiness.IsReady?
         && r == (if readiness.Broken? then Ready(Err(readiness.error)) else Pending)
       case _ => false
  }

  const C_INT_MAX := 0x7FFF_FFFF

  /** The length that `SSL_read` is given for this much room; it is a `c_int`. */
  function SslCapacity(room: nat): (n: nat)
    ensures n <= room && n <= C_INT_MAX && (n == room || n == C_INT_MAX)
  {
    Min(room, C_INT_MAX)
  }

  /** A kernel write ends with the count, with its own error, or, after it would have blocked, with a
      reactor that fails or is not ready. An interrupted write never ends it. */
  ghost predicate KernelWriteReply(trace: seq<Event>, cx: Waker, data: seq<byte>, r: Poll<Result<nat, IoError>>) {
    && trace != []
    && match trace[|trace| - 1]
       case KernelWrite(offered, written) =>
         && offered == data && r == Ready(written)
         && (written.Err? ==> written.error.Kind() != WouldBlock && written.error.Kind() != Interrupted)
       case KernelChecked(waker, dir, readiness) =>
         && waker == cx && dir == WriteSide && !readiness.IsReady?
         && r == (if readiness.Broken? then Ready(Err(readiness.error)) else Pending)
         && |trace| >= 2 && trace[|trace| - 2].KernelWrite? && trace[|trace| - 2].data == data
         && trace[|trace| - 2].written.Err? && trace[|trace| - 2].written.error.Kind() == WouldBlock
       case _ => false
  }

  /** A kernel write is tried again after an interruption, or once the socket is writable. */
  ghost predicate GoesRound(trace: seq<Event>, from: nat, data: seq<byte>) {
    && from < |trace| && trace[from].KernelWrite? && trace[from].data == data && trace[from].written.Err?
    && (|| (|trace| == from + 1 && trace[from].written.error.Kind() == Interrupted)
        || (&& |trace| == from + 2 && trace[from].written.error.Kind() == WouldBlock
            && trace[from + 1].KernelChecked? && trace[from + 1].readiness.IsReady?))
  }

  lemma KernelWriteSettles(trace: seq<Event>, cx: Waker, data: seq<byte>, written: Result<nat, IoError>)
    requires written.Err? ==> written.error.Kind() != WouldBlock && written.error.Kind() != Interrupted
    ensures KernelWriteReply(trace + [KernelWrite(data, written)], cx, data, Ready(written))
  {
  }

  lemma KernelWriteWaits(trace: seq<Event>, cx: Waker, data: seq<byte>, e: IoError, readiness: Readiness)
    requires e.Kind() == WouldBlock && !readiness.IsReady?
    ensures KernelWriteReply(trace + [KernelWrite(data, Err(e))] + [KernelChecked(cx, WriteSide, readiness)], cx, data,
                             if readiness.Broken? then Ready(Err(readiness.error)) else Pending)
  {
  }

  lemma AlertSettles(trace: seq<Event>, cx: Waker, sent: Result<nat, IoError>, r: Option<Poll<IoResult>>)
    requires if sent.Ok? then r == Some(Ready(CheckCloseNotifyWrite(sent.value)))
             else if sent.error.Kind() == Interrupted then r.None?
             else sent.error.Kind() != WouldBlock && r == Some(Ready(Err(sent.error)))
    ensures AlertReply(trace + [KernelAlert(sent)], cx, r)
  {
  }

  lemma AlertWaits(trace: seq<Event>, cx: Waker, e: IoError, readiness: Readiness, r: Option<Poll<IoResult>>)
    requires e.Kind() == WouldBlock
    requires r == match readiness
                  case IsReady => None
                  case NotReady => Some(Pending)
                  case Broken(error) => Some(Ready(Err(error)))
    ensures AlertReply(trace + [KernelAlert(Err(e))] + [KernelChecked(cx, WriteSide, readiness)], cx, r)
  {
  }

  /** One attempt to send the alert: `None` to try again. */
  ghost predicate AlertReply(trace: seq<Event>, cx: Waker, r: Option<Poll<IoResult>>) {
    && trace != []
    && match trace[|trace| - 1]
       case KernelAlert(sent) =>
         if sent.Ok? then
           if sent.value == 2 then r.Some? && Succeeds(r.value)
           else r.Some? && Fails(r.value) && SendError(sent.value) == Some(r.value.value.error)
         else if sent.error.Kind() == Interrupted then r.None?
         else sent.error.Kind() != WouldBlock && r == Some(Ready(Err(sent.error)))
       case KernelChecked(waker, dir, readiness) =>
         && waker == cx && dir == WriteSide
         && |trace| >= 2 && trace[|trace| - 2].KernelAlert?
         && trace[|trace| - 2].sent.Err? && trace[|trace| - 2].sent.error.Kind() == WouldBlock
         && r == (match readiness
                  case IsReady => None
                  case NotReady => Some(Pending)
                  case Broken(error) => Some(Ready(Err(error))))
       case _ => false
  }

  /** The end of a poll that will be woken again: registered behind the shared waker, or directly with
      the reactor, or woken already. */
  predicate Reschedules(e: Event, cx: Waker) {
    FoundNothing(e) || (e.KernelChecked? && e.waker == cx && e.readiness.NotReady?) || e == SelfWoken(cx)
  }
}
