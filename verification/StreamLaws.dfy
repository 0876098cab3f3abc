/** The state of one `TlsStream` as a value, and the law that every poll keeps. */
module StreamLaws {
  import opened Basics
  import opened Trace
  import opened Waiters

  datatype Shutdown = Open | Sending | Closed

  /** `accepted` is every byte acknowledged to callers of `poll_write`, in order, and `received` every
      byte that `SSL_read` handed to callers of `poll_read`. `slots` and `woken` are the waiters', both
      empty as long as none are allocated. */
  datatype Stream = Stream(
    ktls: bool,
    pending: seq<byte>,
    writeError: Option<IoError>,
    shutdown: Shutdown,
    accepted: seq<byte>,
    received: seq<byte>,
    slots: Slots,
    woken: seq<Waker>,
    trace: seq<Event>)

  const FRESH := Stream(false, [], None, Open, [], [], NOBODY, [], [])

  /** The stream's fields mirror what happened at the boundary. */
  ghost predicate Mirrors(s: Stream, m: Monitor) {
    && m.ok && !m.phase.Waiting?
    && (s.shutdown == Open <==> !m.closing)
    && (s.shutdown == Closed <==> m.closed)
    // one record at most is held back, and none once the stream closes or is offloaded
    && |s.pending| <= MAX_PLAINTEXT
    && (s.shutdown != Open || s.ktls ==> s.pending == [])
    // conservation: acknowledged bytes are the completed ones followed by the ones held back
    && m.short <= |s.pending| && (m.short > 0 ==> m.failed)
    && s.accepted == m.committed + s.pending[m.short..]
    && s.received == m.received
    && s.slots == m.slots && s.woken == m.woken
  }

  ghost predicate Lawful(s: Stream) {
    var m := Observe(s.trace);
    && Mirrors(s, m)
    // the latch: set exactly after a failure, to a copy of its error, and everyone who waited has heard
    && (s.writeError.Some? <==> m.failed) && !m.unheard
    && (s.writeError.Some? ==>
          m.cause.Some? && s.writeError.value == Duplicate(m.cause.value) && s.slots == NOBODY)
    // what is held back is exactly what libssl is in the middle of
    && (!m.failed ==> m.blocked == if s.pending == [] then None else Some(s.pending))
  }

  /** The write side has just failed with `e`, which is yet to be latched and announced. */
  ghost predicate Doomed(s: Stream, e: IoError) {
    var m := Observe(s.trace);
    Mirrors(s, m) && m.failed && m.unheard && m.cause == Some(e) && s.writeError.None?
  }

  // Who waits. `s` is the stream before, `t` after, and `reader` the half that was polled with `cx`.

  /** The waker that the other half had left in its slot is still there or, if `heard`, was woken. */
  ghost predicate OtherHalf(s: Stream, t: Stream, reader: bool, heard: bool) {
    var o := SlotOf(!reader);
    && s.woken <= t.woken
    && (if heard then s.slots[o].Some? ==> s.slots[o].value in t.woken[|s.woken|..] else t.slots[o] == s.slots[o])
  }

  /** The waker that an earlier poll of the same half had left is still there, was woken, or gave way to
      `cx`, which in turn is still there or was woken. */
  ghost predicate OwnHalf(s: Stream, t: Stream, reader: bool, cx: Waker) {
    var o := SlotOf(reader);
    && s.woken <= t.woken
    && (s.slots[o].Some? ==>
          || t.slots[o] == s.slots[o] || t.slots[o] == Some(cx)
          || s.slots[o].value in t.woken[|s.woken|..] || cx in t.woken[|s.woken|..])
  }

  /** Nobody is forgotten, and a failure is heard by everyone: it leaves both slots empty, with the other
      half's waker, and that of this half or the `cx` it gave way to, woken since. */
  ghost predicate WaitersKept(s: Stream, t: Stream, reader: bool, cx: Waker, heard: bool) {
    && OtherHalf(s, t, reader, heard) && OwnHalf(s, t, reader, cx)
    && (s.writeError.None? && t.writeError.Some? ==> heard && t.slots == NOBODY)
  }

  /** The bytes held back went out, or the write side failed. */
  ghost predicate Settles(s: Stream, t: Stream) {
    s.writeError.None? && (t.writeError.Some? || (s.pending != [] && t.pending == []))
  }

  /** `s` to `t` is a userspace poll, or a part of one: only this half's events, nobody forgotten. */
  ghost predicate Polled(s: Stream, t: Stream, reader: bool, cx: Waker, heard: bool, pending: bool) {
    && s.trace <= t.trace && IsPoll(t.trace, |s.trace|, reader, cx, pending)
    && WaitersKept(s, t, reader, cx, heard)
  }

  lemma KeptThen(s: Stream, t: Stream, u: Stream, reader: bool, cx: Waker, first: bool, second: bool)
    requires WaitersKept(s, t, reader, cx, first) && WaitersKept(t, u, reader, cx, second) && t.writeError.None?
    ensures WaitersKept(s, u, reader, cx, first || second)
  {
    assert u.woken[|s.woken|..] == t.woken[|s.woken|..] + u.woken[|t.woken|..];
  }

  lemma PolledThen(s: Stream, t: Stream, u: Stream, reader: bool, cx: Waker,
                   first: bool, second: bool, was: bool, pending: bool)
    requires Polled(s, t, reader, cx, first, was) && Polled(t, u, reader, cx, second, pending)
    requires t.writeError.None? && t.trace < u.trace
    ensures Polled(s, u, reader, cx, first || second, pending)
  {
    hide WaitersKept;
    KeptThen(s, t, u, reader, cx, first, second);
    PollMore(t.trace, u.trace, |s.trace|, reader, cx, pending);
  }

  /** Nothing but the fields that play no part in it has changed. */
  lemma PolledNothing(s: Stream, t: Stream, reader: bool, cx: Waker)
    requires t.slots == s.slots && t.woken == s.woken && t.writeError == s.writeError && t.trace == s.trace
    ensures Polled(s, t, reader, cx, false, false)
  {
  }

  lemma PolledCall(s: Stream, t: Stream, e: Event, reader: bool, cx: Waker)
    requires e.SslWrite? || e.SslRead? || e.SslShutdown?
    requires t.slots == s.slots && t.woken == s.woken && t.writeError == s.writeError && t.trace == s.trace + [e]
    ensures Polled(s, t, reader, cx, false, false)
  {
  }

  /** Registering touches one's own slot only. */
  lemma PolledWait(s: Stream, t: Stream, dir: Direction, r: Readiness, reader: bool, cx: Waker)
    requires t.slots == s.slots[SlotOf(reader) := Some(cx)] && t.woken == s.woken && t.writeError == s.writeError
    requires t.trace == s.trace + [Registered(reader, cx), Checked(dir, r)]
    ensures Polled(s, t, reader, cx, false, r.NotReady?)
  {
  }

  /** The shutdown state plays no part in it. */
  lemma Apart(s: Stream, t: Stream, reader: bool, cx: Waker, heard: bool, pending: bool)
    ensures WaitersKept(s.(shutdown := Sending), t, reader, cx, heard) ==> WaitersKept(s, t, reader, cx, heard)
    ensures Polled(s.(shutdown := Sending), t, reader, cx, heard, pending) ==> Polled(s, t, reader, cx, heard, pending)
  {
  }

  lemma KeptAsIs(s: Stream, t: Stream, reader: bool, cx: Waker)
    requires t.slots == s.slots && t.woken == s.woken && t.writeError == s.writeError
    ensures WaitersKept(s, t, reader, cx, false)
  {
  }

  /** After a notify nobody waits, and everyone who did was woken. */
  lemma KeptByNotify(s: Stream, t: Stream, reader: bool, cx: Waker)
    requires t.slots == NOBODY && t.woken == s.woken + Occupied(s.slots)
    ensures WaitersKept(s, t, reader, cx, true)
  {
    assert t.woken[|s.woken|..] == Occupied(s.slots);
    if s.slots[0].Some? { OccupantsAreIn(s.slots, 0); }
    if s.slots[1].Some? { OccupantsAreIn(s.slots, 1); }
  }

  lemma PolledNotify(s: Stream, t: Stream, reader: bool, cx: Waker)
    requires t.slots == NOBODY && t.woken == s.woken + Occupied(s.slots) && t.trace == s.trace + [Notified(true)]
    ensures Polled(s, t, reader, cx, true, false)
  {
    hide WaitersKept;
    KeptByNotify(s, t, reader, cx);
  }

  // One lemma per thing that can happen at the boundary: the law survives it, provided the stream
  // reacts the way each lemma says.

  /** The stream can use its write side: nothing has failed. */
  ghost predicate Usable(s: Stream) {
    Lawful(s) && s.writeError.None?
  }

  /** `notify`: whoever waits is woken and nobody waits any more. */
  function Woken(s: Stream, poller: bool): Stream {
    s.(slots := NOBODY, woken := s.woken + Occupied(s.slots), trace := s.trace + [Notified(poller)])
  }

  lemma Notifies(s: Stream, poller: bool)
    requires Lawful(s)
    ensures Lawful(Woken(s, poller))
  {
    hide Observe;
    ObserveMore(s.trace, Notified(poller));
  }

  /** `write_failure` makes a doomed stream lawful again: a copy is latched and everyone is told. */
  lemma Latches(s: Stream, e: IoError)
    requires Doomed(s, e)
    ensures Lawful(Woken(s, true).(writeError := Some(Duplicate(e))))
    ensures Observe(Woken(s, true).trace).cause == Some(e)
  {
    hide Observe;
    ObserveMore(s.trace, Notified(true));
  }

  lemma NobodyAfterFailure(s: Stream)
    requires Lawful(s) && s.writeError.Some?
    ensures s.slots == NOBODY
  {
  }

  lemma NothingUnheard(s: Stream)
    requires Lawful(s)
    ensures !Observe(s.trace).unheard && !Observe(s.trace).phase.Waiting?
  {
  }

  /** Reproducing the latched error again and again never changes its report. */
  lemma WriteErrorIsACopy(s: Stream)
    requires Lawful(s) && s.writeError.Some?
    ensures Duplicate(s.writeError.value) == s.writeError.value
  {
  }

  lemma NoneHeldBack(s: Stream)
    requires Lawful(s) && (s.shutdown != Open || s.ktls)
    ensures s.pending == []
  {
  }

  /** With nothing held back, every acknowledged byte has been written. */
  lemma NothingHeldBack(s: Stream)
    requires Usable(s) && s.pending == []
    ensures s.accepted == Observe(s.trace).committed
  {
  }

  /** Events that the monitor does not react to keep the law. */
  lemma SameObservations(s: Stream, trace: seq<Event>)
    requires Lawful(s) && Alike(Observe(trace), Observe(s.trace))
    ensures Lawful(s.(trace := trace))
  {
  }

  lemma RetryCompletes(s: Stream, code: SslCode)
    requires Usable(s) && s.pending != []
    ensures Usable(s.(pending := [], trace := s.trace + [SslWrite(s.pending, |s.pending|, code)]))
  {
    hide Observe;
    ObserveMore(s.trace, SslWrite(s.pending, |s.pending|, code));
  }

  lemma RetryWants(s: Stream, n: int, code: SslCode)
    requires Usable(s) && s.pending != [] && n <= 0 && code.Wanted().Some?
    ensures var t := s.(trace := s.trace + [SslWrite(s.pending, n, code)]);
            Usable(t) && Observe(t.trace).phase == Wanting(Writing, code.Wanted().value)
  {
    hide Observe;
    ObserveMore(s.trace, SslWrite(s.pending, n, code));
  }

  /** Any other answer to a retry, a short count included, ends the write side. */
  lemma RetryFails(s: Stream, n: int, code: SslCode)
    requires Usable(s) && s.pending != [] && n < |s.pending| && code.Wanted().None?
    ensures Doomed(s.(trace := s.trace + [SslWrite(s.pending, n, code)]), code.Report())
  {
    hide Observe;
    ObserveMore(s.trace, SslWrite(s.pending, n, code));
  }

  /** A first attempt on new caller bytes needs an empty backlog and an open write half. */
  ghost predicate MayWrite(s: Stream, chunk: seq<byte>) {
    Usable(s) && s.pending == [] && s.shutdown == Open && 0 < |chunk| <= MAX_PLAINTEXT
  }

  lemma WriteAccepts(s: Stream, chunk: seq<byte>, n: int, code: SslCode)
    requires MayWrite(s, chunk) && 0 < n <= |chunk|
    ensures Usable(s.(accepted := s.accepted + chunk[..n], trace := s.trace + [SslWrite(chunk, n, code)]))
  {
    hide Observe;
    ObserveMore(s.trace, SslWrite(chunk, n, code));
    assert s.accepted == Observe(s.trace).committed + [];
  }

  /** libssl has committed to the chunk: own it and acknowledge it. */
  lemma WriteBlocks(s: Stream, chunk: seq<byte>, n: int, code: SslCode)
    requires MayWrite(s, chunk) && !s.ktls && n <= 0 && code.Wanted().Some?
    ensures Usable(s.(pending := chunk, accepted := s.accepted + chunk, trace := s.trace + [SslWrite(chunk, n, code)]))
  {
    hide Observe;
    ObserveMore(s.trace, SslWrite(chunk, n, code));
    assert s.accepted == Observe(s.trace).committed + [] == Observe(s.trace).committed;
    assert chunk[0..] == chunk;
  }

  lemma WriteFails(s: Stream, chunk: seq<byte>, n: int, code: SslCode)
    requires MayWrite(s, chunk) && n <= 0 && code.Wanted().None?
    ensures Doomed(s.(trace := s.trace + [SslWrite(chunk, n, code)]), code.Report())
  {
    hide Observe;
    ObserveMore(s.trace, SslWrite(chunk, n, code));
  }

  lemma ReadCalls(s: Stream, cap: nat, got: seq<byte>, code: SslCode)
    requires Usable(s)
    ensures var t := s.(received := s.received + got, trace := s.trace + [SslRead(cap, got, code)]);
            && Usable(t)
            && (got == [] && code.Wanted().Some? ==> Observe(t.trace).phase == Wanting(Reading, code.Wanted().value))
  {
    hide Observe;
    ObserveMore(s.trace, SslRead(cap, got, code));
  }

  /** Registering and checking readiness changes nothing, unless the reactor itself is broken while
      the write side waits. */
  lemma Waits(s: Stream, op: Operation, dir: Direction, reader: bool, cx: Waker, r: Readiness)
    requires Usable(s) && Observe(s.trace).phase == Wanting(op, dir)
    ensures var t := s.(slots := s.slots[SlotOf(reader) := Some(cx)],
                        trace := s.trace + [Registered(reader, cx), Checked(dir, r)]);
            && (op == Reading || !r.Broken? ==> Usable(t))
            && (op != Reading && r.Broken? ==> Doomed(t, r.error))
  {
    hide Observe;
    ObserveMore(s.trace, Registered(reader, cx));
    ObserveMore(s.trace + [Registered(reader, cx)], Checked(dir, r));
    assert s.trace + [Registered(reader, cx), Checked(dir, r)] ==
           (s.trace + [Registered(reader, cx)]) + [Checked(dir, r)];
  }

  /** A close may be attempted once accepted plaintext is out, until it has been accepted. */
  ghost predicate MayClose(s: Stream) {
    Usable(s) && s.pending == [] && s.shutdown != Closed
  }

  lemma CloseCalls(s: Stream, ret: int, code: SslCode)
    requires MayClose(s)
    ensures var t := s.(trace := s.trace + [SslShutdown(ret, code)]);
            if ret >= 0 then Usable(t.(shutdown := Closed))
            else if code.Wanted().Some? then
              MayClose(t.(shutdown := Sending)) && Observe(t.trace).phase == Wanting(Closing, code.Wanted().value)
            else Doomed(t.(shutdown := Sending), code.Report())
  {
    hide Observe;
    ObserveMore(s.trace, SslShutdown(ret, code));
  }

  // The same for the kernel data path.

  lemma KernelWrites(s: Stream, data: seq<byte>, r: Result<nat, IoError>)
    requires Usable(s) && s.pending == [] && s.shutdown == Open && (r.Ok? ==> r.value <= |data|)
    ensures Usable(s.(accepted := if r.Ok? then s.accepted + data[..r.value] else s.accepted,
                      trace := s.trace + [KernelWrite(data, r)]))
    ensures Observe(s.trace + [KernelWrite(data, r)]).phase == Busy
  {
    hide Observe;
    ObserveMore(s.trace, KernelWrite(data, r));
    if r.Ok? {
      assert s.accepted == Observe(s.trace).committed + [];
    }
  }

  lemma AlertSends(s: Stream, sent: Result<nat, IoError>)
    requires MayClose(s) && (sent.Ok? ==> sent.value <= 2)
    ensures var t := s.(trace := s.trace + [KernelAlert(sent)]);
            if AlertFailed(sent) then
              ErrorOf(KernelAlert(sent)).Some? && Doomed(t.(shutdown := Sending), ErrorOf(KernelAlert(sent)).value)
            else if sent.Ok? then Usable(t.(shutdown := Closed))
            else MayClose(t.(shutdown := Sending)) && Observe(t.trace).phase == AlertBlocked
  {
    hide Observe;
    ObserveMore(s.trace, KernelAlert(sent));
    match sent {
      case Ok(n) =>
        if n == 2 {
        } else {
        }
      case Err(_) =>
    }
  }

  lemma KernelChecks(s: Stream, cx: Waker, dir: Direction, r: Readiness)
    requires Lawful(s)
    ensures var t := s.(trace := s.trace + [KernelChecked(cx, dir, r)]);
            && (!r.Broken? || dir == ReadSide || Observe(s.trace).phase != AlertBlocked ==> Lawful(t))
            && (r.Broken? && dir == WriteSide && Observe(s.trace).phase == AlertBlocked && s.writeError.None? ==>
                  Doomed(t, r.error))
  {
    hide Observe;
    ObserveMore(s.trace, KernelChecked(cx, dir, r));
  }

  lemma SelfWakes(s: Stream, cx: Waker)
    requires Lawful(s)
    ensures Lawful(s.(trace := s.trace + [SelfWoken(cx)]))
  {
    hide Observe;
    ObserveMore(s.trace, SelfWoken(cx));
  }

  lemma TcpCloses(s: Stream, r: IoResult)
    requires Usable(s) && s.shutdown == Closed
    ensures var t := s.(trace := s.trace + [TcpShutdown(r)]);
            if r.Ok? then Usable(t) else Doomed(t, r.error)
  {
    hide Observe;
    ObserveMore(s.trace, TcpShutdown(r));
  }
}
