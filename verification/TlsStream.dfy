/** `TlsStream`: the four polls that share one TLS session. */
module TlsStream {
  import opened Basics
  import opened KeyMaterial
  import opened KtlsInstall
  import opened Records
  import opened RecordReader
  import opened RecordStream
  import opened Session
  import opened StreamLaws
  import opened Trace
  import opened Waiters

  /** What one `SSL_write` takes from the front of the caller's bytes. */
  function FirstRecord(buf: seq<byte>): (chunk: seq<byte>)
    ensures chunk <= buf && |chunk| <= MAX_PLAINTEXT
    ensures |chunk| == MAX_PLAINTEXT || chunk == buf
  {
    buf[..Min(|buf|, MAX_PLAINTEXT)]
  }

  class TlsStream {
    const io: Session
    const ktlsReader: RecordReader
    const ktlsDisabled: bool
    var ktlsActive: bool
    var pendingWrite: seq<byte>
    var waiters: IoWaiters?
    var writeError: Option<IoError>
    var shutdown: Shutdown
    /** Every byte acknowledged to callers of `PollWrite`, in order. */
    ghost var accepted: seq<byte>
    /** Every byte that `SSL_read` handed to callers of `PollRead`, in order. */
    ghost var received: seq<byte>

    ghost function View(): Stream
      reads this, io, waiters
    {
      Stream(ktlsActive, pendingWrite, writeError, shutdown, accepted, received,
             if waiters == null then NOBODY else waiters.slots, if waiters == null then [] else waiters.woken, io.trace)
    }

    ghost predicate Valid()
      reads this, io, waiters, ktlsReader, ktlsReader.alert
    {
      Lawful(View()) && ktlsReader.Valid()
    }

    /** The latest events of this poll put `cx` in the slot of its half and then found the shared
        waker's direction not ready. */
    ghost predicate Parked(cx: Waker, reader: bool)
      reads this, io, waiters
    {
      var n := |io.trace|;
      && waiters != null && waiters.slots[SlotOf(reader)] == Some(cx)
      && n >= 2
      && io.trace[n - 2] == Registered(reader, cx)
      && io.trace[n - 1].Checked? && io.trace[n - 1].readiness == NotReady
    }

    /** The first thing done since `before` was to offer libssl these bytes again. */
    ghost predicate Retried(before: seq<Event>, bytes: seq<byte>)
      reads io
    {
      before < io.trace && io.trace[|before|].SslWrite? && io.trace[|before|].data == bytes
    }

    /** The event that ended the write side brought this very error. */
    ghost predicate FailedWith(e: IoError)
      reads io
    {
      Observe(io.trace).cause == Some(e)
    }

    /** Waiters, once allocated, are kept. */
    twostate predicate SameWaiters()
      reads this
    {
      if old(waiters) == null then waiters == null || fresh(waiters) else waiters == old(waiters)
    }

    constructor (io: Session, ktlsDisabled: bool)
      requires io.trace == []
      ensures Valid() && this.io == io && this.ktlsDisabled == ktlsDisabled
      ensures fresh(ktlsReader) && fresh(ktlsReader.alert) && ktlsReader.inputs == []
      ensures View() == FRESH && waiters == null
    {
      this.io := io;
      this.ktlsDisabled := ktlsDisabled;
      ktlsReader := new RecordReader();
      ktlsActive, pendingWrite, waiters, writeError, shutdown := false, [], null, None, Open;
      accepted, received := [], [];
    }

    /** Try to switch to the kernel data path, once, right after the handshake. `hasPending` is libssl's
        `SSL_has_pending`: anything buffered, decrypted or not, keeps the stream in userspace. */
    method TryAutoInstallKtls(sock: KernelSocket, h: Handshake, linux: bool, hasPending: bool)
      returns (r: Result<Unit, Error>)
      requires Valid() && View() == FRESH
      requires !sock.ulp && sock.rx.None? && sock.tx.None?
      modifies this`ktlsActive, sock
      ensures Valid() && View() == FRESH.(ktls := ktlsActive)
      // both directions or neither, else an error
      ensures r.Ok? && ktlsActive ==> sock.rx.Some? && sock.tx.Some?
      ensures r.Ok? && !ktlsActive ==> sock.rx.None? && sock.tx.None?
      ensures (sock.rx.Some? != sock.tx.Some?) ==> r.Err?
      // and exactly when
      ensures r.Ok? && ktlsActive <==> !ktlsDisabled && !hasPending && Offloads(sock, h, linux)
      ensures r.Err? <==> !ktlsDisabled && !hasPending && Condemns(sock, h, linux)
      ensures r.Ok? && ktlsActive ==> Derive(h, Detect(h).value) == Ok(CryptoInfo(sock.tx.value, sock.rx.value))
      ensures r.Ok? && ktlsActive ==> HoldsNegotiated(sock.rx.value, sock.tx.value, h)
      ensures !Eligible(h) ==> r.Ok? && !ktlsActive
      ensures r.Err? ==> Detect(h).Some? && r.error == Verdict(sock, h)
      ensures ktlsDisabled || hasPending ==> !sock.ulp
    {
      hide Derive, FromIds, HoldsNegotiated, Eligible;
      if ktlsActive || ktlsDisabled {
        return Ok(Unit);
      }
      if hasPending {
        return Ok(Unit);
      }
      var installed := InstallKtls(sock, h, linux);
      if installed.Ok? {
        ktlsActive := true;
        r := Ok(Unit);
      } else if FallsBack(installed.error) {
        r := Ok(Unit);
      } else {
        r := installed;
      }
    }

    /** Register first, then ask for readiness under the shared waker. */
    method PollSslReady(code: SslCode, cx: Waker, reader: bool) returns (r: Readiness)
      requires code.Wanted().Some?
      modifies this`waiters, io`clock, io`trace, io`events, waiters
      ensures SameWaiters() && waiters != null
      ensures View() == old(View()).(
                slots := old(View()).slots[SlotOf(reader) := Some(cx)],
                trace := old(io.trace) + [Registered(reader, cx), Checked(code.Wanted().value, r)])
      ensures r.IsReady? ==> old(io.events) > 0 && io.events == old(io.events) - 1
      ensures !r.IsReady? ==> io.events == old(io.events)
      ensures io.clock == old(io.clock) + 1
    {
      hide Observe, Observe1;
      if waiters == null {
        waiters := new IoWaiters();
      }
      waiters.Register(reader, cx);
      io.NoteRegistered(reader, cx);
      r := io.PollClearReady(if code == WantRead then ReadSide else WriteSide);
    }

    /** Wake everyone who waits; nobody does as long as no waiters are allocated. */
    method NotifyWaiters(ghost poller: bool)
      modifies io`trace, waiters
      ensures View() == Woken(old(View()), poller)
      ensures waiters != null ==> AllIn(old(waiters.slots), waiters.woken[|old(waiters.woken)|..])
    {
      hide Observe, Observe1;
      if waiters != null {
        waiters.Notify();
      }
      io.NoteNotified(poller);
    }

    /** Latch a copy of the error, wake everyone who waits, and hand the original to the caller. */
    method WriteFailure(e: IoError) returns (r: IoError)
      requires Doomed(View(), e)
      modifies this`writeError, io`trace, waiters
      ensures r == e && Lawful(View()) && FailedWith(e)
      ensures writeError.Some? && SameReport(e, writeError.value)
      ensures View() == Woken(old(View()), true).(writeError := Some(Duplicate(e)))
      ensures waiters != null ==>
                waiters.slots == NOBODY && AllIn(old(waiters.slots), waiters.woken[|old(waiters.woken)|..])
    {
      Latches(View(), e);
      writeError := Some(Duplicate(e));
      NotifyWaiters(true);
      r := e;
    }

    /** Retry the plaintext held back, if any, until it is out, the reactor is not ready, or libssl
        fails. Each extra round uses up one readiness event. */
    method PollPendingWrite(cx: Waker, reader: bool) returns (r: Poll<IoResult>)
      requires Valid()
      modifies this`pendingWrite, this`waiters, this`writeError, io, waiters
      ensures Valid() && SameWaiters()
      ensures old(io.trace) <= io.trace
      // latched: no foreign call, the same report
      ensures old(writeError).Some? ==>
                View() == old(View()) && r == Ready(Err(writeError.value))
      ensures Succeeds(r) ==> pendingWrite == [] && writeError.None?
      ensures Fails(r) <==> writeError.Some?
      ensures Fails(r) ==> SameReport(r.value.error, writeError.value)
      ensures Fails(r) && old(writeError).None? ==> FailedWith(r.value.error)
      ensures r.Pending? ==>
                old(io.trace) < io.trace && pendingWrite == old(pendingWrite) && writeError.None? && Parked(cx, reader)
      ensures old(pendingWrite) == [] ==> View() == old(View()) && io.clock == old(io.clock)
      ensures old(pendingWrite) == [] && old(writeError).None? ==> Succeeds(r)
      ensures old(pendingWrite) != [] && old(writeError).None? ==> Retried(old(io.trace), old(pendingWrite))
      // whoever waits on the other half hears about completion and about failure
      ensures Polled(old(View()), View(), reader, cx,
                r.Ready? && old(pendingWrite) != [] && old(writeError).None?, r.Pending?)
      ensures io.events <= old(io.events)
      ensures io.clock + 2 * io.events <= old(io.clock) + 2 * old(io.events) + 2
    {
      hide RecordReader.Valid, Lawful, Doomed, Mirrors, Observe, Observe1, After, Polled, Occupied, AllIn;
      PolledNothing(View(), View(), reader, cx);
      if writeError.Some? {
        WriteErrorIsACopy(View());
        return Ready(Err(Duplicate(writeError.value)));
      }
      while pendingWrite != []
        invariant Usable(View()) && ktlsReader.Valid() && SameWaiters()
        invariant Polled(old(View()), View(), reader, cx, false, false)
        invariant pendingWrite == old(pendingWrite)
        invariant old(io.trace) <= io.trace && (old(io.trace) < io.trace ==> Retried(old(io.trace), old(pendingWrite)))
        invariant old(pendingWrite) == [] ==> View() == old(View()) && io.clock == old(io.clock)
        invariant io.events <= old(io.events)
        invariant io.clock + 2 * io.events <= old(io.clock) + 2 * old(io.events)
        decreases io.events
      {
        ghost var before := View();
        var settled := RetryOnce(cx, reader);
        PolledThen(old(View()), before, View(), reader, cx,
                   false, settled.Some? && settled.value.Ready?, false, settled == Some(Pending));
        if settled.Some? {
          return settled.value;
        }
      }
      r := Ready(Ok(Unit));
    }

    /** One `SSL_write` of the bytes held back: the poll's answer, or `None` to go round again. */
    method RetryOnce(cx: Waker, reader: bool) returns (r: Option<Poll<IoResult>>)
      requires Usable(View()) && pendingWrite != []
      modifies this`pendingWrite, this`waiters, this`writeError, io, waiters
      ensures Lawful(View()) && SameWaiters()
      ensures Retried(old(io.trace), old(pendingWrite))
      ensures match r
              case None => writeError.None? && pendingWrite == old(pendingWrite)
              case Some(Pending) => writeError.None? && pendingWrite == old(pendingWrite) && Parked(cx, reader)
              case Some(Ready(Ok(_))) => writeError.None? && pendingWrite == [] && View().slots == NOBODY
              case Some(Ready(Err(e))) =>
                writeError.Some? && SameReport(e, writeError.value) && FailedWith(e) && View().slots == NOBODY
      // whoever waits on the other half hears about completion and about failure
      ensures Polled(old(View()), View(), reader, cx, r.Some? && r.value.Ready?, r == Some(Pending))
      ensures io.events == if r.None? then old(io.events) - 1 else old(io.events)
      ensures io.clock == old(io.clock) + 2 || (r.Some? && io.clock == old(io.clock) + 1)
    {
      hide FailedWith, SameReport;
      hide RecordReader.Valid, Lawful, Doomed, Mirrors, Observe, Observe1, After, Polled, Occupied, AllIn;
      ghost var before := View();
      var n, code := io.SslWrite(pendingWrite);
      ghost var called := View();
      PolledCall(before, called, SslWrite(before.pending, n, code), reader, cx);
      if n == |pendingWrite| {
        RetryCompletes(before, code);
        pendingWrite := [];
        Notifies(View(), true);
        NotifyWaiters(true);
        PolledNotify(called, View(), reader, cx);
        r := Some(Ready(Ok(Unit)));
      } else if code.Wanted().Some? {
        RetryWants(before, n, code);
        r := WaitToWrite(Writing, code, cx, reader);
      } else {
        RetryFails(before, n, code);
        var error := WriteFailure(code.Report());
        PolledNotify(called, View(), reader, cx);
        r := Some(Ready(Err(error)));
      }
      PolledThen(before, called, View(), reader, cx, false, r.Some? && r.value.Ready?, false, r == Some(Pending));
    }

    /** After a WANT of a write or a close: wait under the shared waker. A reactor that fails ends the
        write side. */
    method WaitToWrite(ghost op: Operation, code: SslCode, cx: Waker, reader: bool) returns (r: Option<Poll<IoResult>>)
      requires Usable(View()) && op != Reading
      requires code.Wanted().Some? && Observe(io.trace).phase == Wanting(op, code.Wanted().value)
      modifies this`waiters, this`writeError, io, waiters
      ensures Lawful(View()) && SameWaiters()
      ensures old(io.trace) < io.trace
      ensures match r
              case None => writeError.None?
              case Some(Pending) => writeError.None? && Parked(cx, reader)
              case Some(Ready(Ok(_))) => false
              case Some(Ready(Err(e))) =>
                writeError.Some? && SameReport(e, writeError.value) && FailedWith(e) && View().slots == NOBODY
      ensures Polled(old(View()), View(), reader, cx, r.Some? && r.value.Ready?, r == Some(Pending))
      ensures io.events == if r.None? then old(io.events) - 1 else old(io.events)
      ensures io.clock == old(io.clock) + 1
    {
      hide FailedWith, SameReport;
      hide RecordReader.Valid, Lawful, Doomed, Mirrors, Observe, Observe1, After, Polled, Occupied, AllIn;
      ghost var before := View();
      var ready := PollSslReady(code, cx, reader);
      ghost var registered := View();
      Waits(before, op, code.Wanted().value, reader, cx, ready);
      PolledWait(before, registered, code.Wanted().value, ready, reader, cx);
      match ready {
        case NotReady => r := Some(Pending);
        case IsReady => r := None;
        case Broken(e) =>
          var error := WriteFailure(e);
          PolledNotify(registered, View(), reader, cx);
          PolledThen(before, registered, View(), reader, cx, false, true, false, false);
          r := Some(Ready(Err(error)));
      }
    }

    /** One `SSL_read`: the poll's answer, or `None` to go round again. */
    method ReadOnce(cx: Waker, buf: ReadBuf) returns (r: Option<Poll<IoResult>>)
      requires Usable(View()) && buf.Valid() && buf.Remaining() > 0
      modifies this`waiters, this`received, io, waiters, buf`filled, buf.data
      ensures Usable(View()) && SameWaiters()
      ensures buf.Valid() && old(buf.Filled()) <= buf.Filled()
      ensures received == old(received) + buf.Filled()[old(buf.filled)..]
      ensures old(io.trace) < io.trace
      ensures if r.None? then io.trace[|io.trace| - 1].Checked? && io.trace[|io.trace| - 1].readiness.IsReady?
              else ReadReply(io.trace, SslCapacity(old(buf.Remaining())), r.value)
      ensures io.trace[|io.trace| - 1].SslRead? ==> io.trace[|io.trace| - 1].got == buf.Filled()[old(buf.filled)..]
      ensures !(r.Some? && Succeeds(r.value)) ==> buf.filled == old(buf.filled)
      ensures r == Some(Pending) ==> Parked(cx, true) && Reschedules(io.trace[|io.trace| - 1], cx)
      ensures Polled(old(View()), View(), true, cx, false, r == Some(Pending))
      ensures io.events == if r.None? then old(io.events) - 1 else old(io.events)
      ensures io.clock == old(io.clock) + 2 || (r.Some? && io.clock == old(io.clock) + 1)
    {
      hide RecordReader.Valid, Lawful, Doomed, Mirrors, Observe, Observe1, After, Polled, Occupied, AllIn;
      ghost var before := View();
      var cap := SslCapacity(buf.Remaining());
      var got, code := io.SslRead(cap);
      ReadCalls(before, cap, got, code);
      received := received + got;
      PolledCall(before, View(), Event.SslRead(cap, got, code), true, cx);
      if got != [] {
        buf.Put(got);
        return Some(Ready(Ok(Unit)));
      }
      assert received == before.received;
      if code.Wanted().Some? {
        ghost var wanting := View();
        r := WaitToRead(code, cx);
        PolledThen(before, wanting, View(), true, cx, false, false, false, r == Some(Pending));
      } else {
        r := Some(Ready(if code == ZeroReturn then Ok(Unit) else Err(code.Report())));
      }
    }

    /** After a WANT of the read: wait under the shared waker. */
    method WaitToRead(code: SslCode, cx: Waker) returns (r: Option<Poll<IoResult>>)
      requires Usable(View())
      requires code.Wanted().Some? && Observe(io.trace).phase == Wanting(Reading, code.Wanted().value)
      modifies this`waiters, io, waiters
      ensures Usable(View()) && SameWaiters()
      ensures old(io.trace) < io.trace && |io.trace| == |old(io.trace)| + 2
      ensures io.trace[|io.trace| - 1].Checked?
      ensures Polled(old(View()), View(), true, cx, false, r == Some(Pending))
      ensures r == match io.trace[|io.trace| - 1].readiness
              case NotReady => Some(Pending)
              case IsReady => None
              case Broken(e) => Some(Ready(Err(e)))
      ensures r == Some(Pending) ==> Parked(cx, true)
      ensures io.events == if r.None? then old(io.events) - 1 else old(io.events)
      ensures io.clock == old(io.clock) + 1
    {
      hide RecordReader.Valid, Lawful, Doomed, Mirrors, Observe, Observe1, After, Polled, Occupied, AllIn;
      ghost var wanting := View();
      var ready := PollSslReady(code, cx, true);
      Waits(wanting, Reading, code.Wanted().value, true, cx, ready);
      PolledWait(wanting, View(), code.Wanted().value, ready, true, cx);
      r := match ready
        case NotReady => Some(Pending)
        case IsReady => None
        case Broken(e) => Some(Ready(Err(e)));
    }

    /** Flush what is held back without letting it block the read, then read. */
    method PollRead(cx: Waker, buf: ReadBuf) returns (r: Poll<IoResult>)
      requires Valid() && buf.Valid() && buf.data != ktlsReader.alert
      modifies this`pendingWrite, this`waiters, this`writeError, this`received, io, waiters
      modifies ktlsReader, ktlsReader.alert, buf`filled, buf.data
      ensures Valid() && buf.Valid() && SameWaiters()
      ensures old(io.trace) <= io.trace && old(buf.Filled()) <= buf.Filled()
      ensures r.Pending? ==> old(io.trace) < io.trace && Reschedules(io.trace[|io.trace| - 1], cx)
      // a zero-capacity read is neither an end of stream nor an error
      ensures old(buf.Remaining()) == 0 ==> r == Ready(Ok(Unit)) && View() == old(View())
      ensures !Succeeds(r) ==> buf.filled == old(buf.filled)
      // libssl: the answer is that of the last event, or the failure of the flush before it
      ensures !ktlsActive && old(buf.Remaining()) > 0 && old(writeError).None? ==>
                && old(io.trace) < io.trace
                && (if writeError.Some? then Fails(r) && FailedWith(r.value.error)
                    else ReadReply(io.trace, SslCapacity(old(buf.Remaining())), r))
      ensures !ktlsActive && old(buf.Remaining()) > 0 && Succeeds(r) ==>
                && io.trace != [] && io.trace[|io.trace| - 1].SslRead?
                && io.trace[|io.trace| - 1].got == buf.Filled()[old(buf.filled)..]
      ensures received == old(received) + if ktlsActive then [] else buf.Filled()[old(buf.filled)..]
      // backpressure on output never keeps a read from being tried
      ensures !ktlsActive && r.Pending? ==> Parked(cx, true)
      ensures !ktlsActive && old(buf.Remaining()) > 0 && old(pendingWrite) != [] && old(writeError).None? ==>
                Retried(old(io.trace), old(pendingWrite))
      ensures !ktlsActive && old(writeError).Some? && old(buf.Remaining()) > 0 ==>
                View() == old(View()) && r == Ready(Err(writeError.value))
      ensures !ktlsActive ==> ktlsReader.inputs == old(ktlsReader.inputs)
      // the writer hears if its bytes went out or the write side failed, and else is still waiting
      ensures !ktlsActive ==>
                Polled(old(View()), View(), true, cx, Settles(old(View()), View()), r.Pending?)
      ensures ktlsActive ==> WaitersKept(old(View()), View(), true, cx, false)
      // kernel: the caller sees the application data of the fragments consumed
      ensures ktlsActive ==>
                && pendingWrite == old(pendingWrite) && writeError == old(writeError)
                && TookIn(old(io.trace), io.trace, old(ktlsReader.inputs), ktlsReader.inputs)
                && Delivered(INITIAL, ktlsReader.inputs) ==
                     Delivered(INITIAL, old(ktlsReader.inputs)) + buf.Filled()[old(buf.filled)..]
                && (Succeeds(r) && old(buf.Remaining()) > 0 ==>
                      (buf.filled == old(buf.filled) <==> ktlsReader.terminal == Some(RecordStream.Closed)))
                && (Fails(r) ==>
                      && ktlsReader.terminal.Some? && ktlsReader.terminal.value.Failed?
                      && SameReport(r.value.error, ktlsReader.terminal.value.error))
                && RecvAsked(io.trace, |old(io.trace)|, old(buf.Remaining()))
                && DataDelivered(old(io.trace), io.trace, old(ktlsReader.inputs), old(buf.Remaining()), r,
                                 old(buf.Filled()), buf.Filled())
      ensures io.events <= old(io.events)
      ensures io.clock + 2 * io.events <= old(io.clock) + 2 * old(io.events) + (if ktlsActive then IO_BUDGET else 4)
    {
      hide RecordReader.Valid, Lawful, Doomed, Mirrors, Observe, Observe1, Delivered, After, Polled, TookIn;
      hide Parked, ReadReply, FailedWith, SameReport, RecvAsked, DataDelivered;
      assert received + [] == received;
      PolledNothing(View(), View(), true, cx);
      TookInNothing(io.trace, ktlsReader.inputs);
      AskedNothing(io.trace, ktlsReader.inputs, buf.Remaining(), Ready(Ok(Unit)), buf.Filled());
      if buf.Remaining() == 0 {
        return Ready(Ok(Unit));
      }
      if ktlsActive {
        ghost var before := View();
        NothingUnheard(before);
        r := ktlsReader.PollRead(io, cx, buf);
        SameObservations(before, io.trace);
        return;
      }
      r := SslPollRead(cx, buf);
    }

    /** The libssl branch of the read. */
    method SslPollRead(cx: Waker, buf: ReadBuf) returns (r: Poll<IoResult>)
      requires Valid() && buf.Valid() && buf.Remaining() > 0
      modifies this`pendingWrite, this`waiters, this`writeError, this`received, io, waiters, buf`filled, buf.data
      ensures Lawful(View()) && SameWaiters()
      ensures buf.Valid() && old(io.trace) <= io.trace && old(buf.Filled()) <= buf.Filled()
      ensures received == old(received) + buf.Filled()[old(buf.filled)..]
      ensures !Succeeds(r) ==> buf.filled == old(buf.filled)
      ensures old(writeError).None? ==>
                && old(io.trace) < io.trace
                && (if writeError.Some? then Fails(r) && FailedWith(r.value.error)
                    else ReadReply(io.trace, SslCapacity(old(buf.Remaining())), r))
      ensures Succeeds(r) ==>
                && io.trace != [] && io.trace[|io.trace| - 1].SslRead?
                && io.trace[|io.trace| - 1].got == buf.Filled()[old(buf.filled)..]
      ensures r.Pending? ==>
                && old(io.trace) < io.trace && Reschedules(io.trace[|io.trace| - 1], cx)
                && Parked(cx, true)
      ensures old(pendingWrite) != [] && old(writeError).None? ==> Retried(old(io.trace), old(pendingWrite))
      ensures old(writeError).Some? ==> View() == old(View()) && r == Ready(Err(writeError.value))
      ensures Polled(old(View()), View(), true, cx, Settles(old(View()), View()), r.Pending?)
      ensures io.events <= old(io.events)
      ensures io.clock + 2 * io.events <= old(io.clock) + 2 * old(io.events) + 4
    {
      hide RecordReader.Valid, Lawful, Doomed, Mirrors, Observe, Observe1, After, Polled, Occupied, AllIn;
      hide Parked, ReadReply, FailedWith, SameReport, Reschedules;
      assert received + [] == received;
      ghost var start := View();
      var flushed := PollPendingWrite(cx, true);
      if Fails(flushed) {
        return Ready(Err(flushed.value.error));
      }
      ghost var ready := View();
      r := ReadLoop(cx, buf);
      PolledThen(start, ready, View(), true, cx,
                 start.pending != [] && ready.pending == [], false, flushed.Pending?, r.Pending?);
    }

    /** `SSL_read` until it yields, fails, or the reactor is not ready. Each extra round uses up one
        readiness event. */
    method ReadLoop(cx: Waker, buf: ReadBuf) returns (r: Poll<IoResult>)
      requires Usable(View()) && buf.Valid() && buf.Remaining() > 0
      modifies this`waiters, this`received, io, waiters, buf`filled, buf.data
      ensures Usable(View()) && SameWaiters()
      ensures buf.Valid() && old(io.trace) < io.trace && old(buf.Filled()) <= buf.Filled()
      ensures received == old(received) + buf.Filled()[old(buf.filled)..]
      ensures !Succeeds(r) ==> buf.filled == old(buf.filled)
      ensures ReadReply(io.trace, SslCapacity(old(buf.Remaining())), r)
      ensures Succeeds(r) ==>
                io.trace[|io.trace| - 1].SslRead? && io.trace[|io.trace| - 1].got == buf.Filled()[old(buf.filled)..]
      ensures r.Pending? ==> Reschedules(io.trace[|io.trace| - 1], cx) && Parked(cx, true)
      ensures Polled(old(View()), View(), true, cx, false, r.Pending?)
      ensures io.events <= old(io.events)
      ensures io.clock + 2 * io.events <= old(io.clock) + 2 * old(io.events) + 2
    {
      hide RecordReader.Valid, Lawful, Doomed, Mirrors, Observe, Observe1, After, Polled, Occupied, AllIn;
      hide Parked, SameReport, Reschedules;
      assert received + [] == received;
      PolledNothing(View(), View(), true, cx);
      while true
        invariant Usable(View()) && SameWaiters()
        invariant Polled(old(View()), View(), true, cx, false, false)
        invariant buf.Valid() && buf.filled == old(buf.filled) && buf.Filled() == old(buf.Filled())
        invariant received == old(received)
        invariant old(io.trace) <= io.trace
        invariant io.events <= old(io.events)
        invariant io.clock + 2 * io.events <= old(io.clock) + 2 * old(io.events)
        decreases io.events
      {
        ghost var before := View();
        var settled := ReadOnce(cx, buf);
        PolledThen(old(View()), before, View(), true, cx, false, false, false, settled == Some(Pending));
        if settled.Some? {
          return settled.value;
        }
      }
    }

    /** Accept at most one record of new bytes, and only after everything held back is out. */
    method PollWrite(cx: Waker, buf: seq<byte>) returns (r: Poll<Result<nat, IoError>>)
      requires Valid()
      modifies this`pendingWrite, this`waiters, this`writeError, this`accepted, io, waiters
      ensures Valid() && SameWaiters()
      ensures old(io.trace) <= io.trace
      // exactly the acknowledged prefix of the caller's bytes is accepted
      ensures r.Ready? && r.value.Ok? ==>
                r.value.value <= |buf| && accepted == old(accepted) + buf[..r.value.value]
      ensures !(r.Ready? && r.value.Ok?) ==> accepted == old(accepted)
      ensures !ktlsActive && r.Ready? && r.value.Ok? ==>
                r.value.value <= MAX_PLAINTEXT && (r.value.value == 0 <==> buf == [])
      ensures buf == [] ==> r == Ready(Ok(0)) && View() == old(View())
      ensures buf != [] && old(writeError).Some? ==>
                View() == old(View()) && r == Ready(Err(writeError.value))
      ensures buf != [] && old(writeError).None? && old(shutdown) != Open ==>
                View() == old(View()) && r.Ready? && r.value.Err? && r.value.error.Kind() == BrokenPipe
      // what was offered: one record from the front of the buffer, or all of it to the kernel
      ensures buf != [] && r.Ready? && r.value.Ok? ==>
                && old(io.trace) < io.trace
                && (if ktlsActive then io.trace[|io.trace| - 1] == KernelWrite(buf, r.value)
                    else Offered(FirstRecord(buf), r.value.value))
      ensures !ktlsActive && r.Ready? && r.value.Err? ==>
                (writeError.Some? && SameReport(r.value.error, writeError.value)) || old(shutdown) != Open
      ensures old(writeError).None? && writeError.Some? ==> !ktlsActive && r.Ready? && r.value.Err?
      ensures buf != [] && old(writeError).None? && old(shutdown) == Open ==>
                if ktlsActive then KernelWriteReply(io.trace, cx, buf, r)
                else r.Ready? && r.value.Err? ==> FailedWith(r.value.error)
      ensures r.Pending? ==>
                && old(io.trace) < io.trace
                && (!ktlsActive ==> Parked(cx, false) && old(pendingWrite) != [] && pendingWrite == old(pendingWrite))
                && (ktlsActive ==> io.trace[|io.trace| - 1] == KernelChecked(cx, WriteSide, NotReady))
      // the reader hears if the bytes held back went out or the write side failed, and else is still waiting
      ensures !ktlsActive ==>
                Polled(old(View()), View(), false, cx,
                  && buf != [] && old(writeError).None? && old(shutdown) == Open
                  && (writeError.Some? || (old(pendingWrite) != [] && r.Ready?)), r.Pending?)
      ensures ktlsActive ==> WaitersKept(old(View()), View(), false, cx, false)
      ensures io.events <= old(io.events)
      ensures io.clock + 2 * io.events <= old(io.clock) + 2 * old(io.events) + 3
    {
      hide RecordReader.Valid, Lawful, Doomed, Mirrors, Observe, Observe1, After, Polled, Occupied, AllIn;
      hide FirstRecord, SameReport, Parked, FailedWith;
      PolledNothing(View(), View(), false, cx);
      if buf == [] {
        return Ready(Ok(0));
      }
      if writeError.Some? {
        WriteErrorIsACopy(View());
        return Ready(Err(Duplicate(writeError.value)));
      }
      if shutdown != Open {
        return Ready(Err(Custom(BrokenPipe, "TLS write half is shut down", 0)));
      }
      if ktlsActive {
        r := KtlsPollWrite(cx, buf);
        return;
      }
      var flushed := PollPendingWrite(cx, false);
      if flushed.Pending? {
        return Pending;
      }
      if flushed.value.Err? {
        return Ready(Err(flushed.value.error));
      }
      ghost var before := View();
      r := WriteChunk(buf, cx);
      PolledThen(old(View()), before, View(), false, cx, old(pendingWrite) != [], writeError.Some?, false, false);
    }

    /** The latest event offered `chunk` to libssl, and `n` is what that amounts to: the count if it went
        through, all of it if it blocked. */
    ghost predicate Offered(chunk: seq<byte>, n: nat)
      reads io
    {
      && io.trace != []
      && var last := io.trace[|io.trace| - 1];
         last.SslWrite? && last.data == chunk && n == if last.n > 0 then last.n else |chunk|
    }

    /** The first `SSL_write` of new bytes. Blocked bytes are owned and acknowledged, never refused. */
    method WriteChunk(buf: seq<byte>, ghost cx: Waker) returns (r: Poll<Result<nat, IoError>>)
      requires Valid() && buf != [] && writeError.None? && shutdown == Open && !ktlsActive && pendingWrite == []
      modifies this`pendingWrite, this`writeError, this`accepted, io, waiters
      ensures Valid() && old(io.trace) < io.trace && r.Ready?
      ensures r.value.Ok? ==>
                && 0 < r.value.value <= |FirstRecord(buf)|
                && accepted == old(accepted) + buf[..r.value.value]
                && Offered(FirstRecord(buf), r.value.value)
      ensures r.value.Err? ==>
                && accepted == old(accepted) && FailedWith(r.value.error)
                && writeError.Some? && SameReport(r.value.error, writeError.value)
      ensures r.value.Ok? ==> writeError.None?
      ensures Polled(old(View()), View(), false, cx, writeError.Some?, false)
      ensures io.events == old(io.events) && io.clock == old(io.clock) + 1
    {
      hide RecordReader.Valid, Lawful, Doomed, Mirrors, Observe, Observe1, After, Polled, Occupied, AllIn;
      hide FirstRecord, SameReport, FailedWith;
      var chunk := FirstRecord(buf);
      ghost var before := View();
      var n, code := io.SslWrite(chunk);
      ghost var called := View();
      PolledCall(before, called, SslWrite(chunk, n, code), false, cx);
      if n > 0 {
        WriteAccepts(before, chunk, n, code);
        PrefixOfPrefix(chunk, buf, n);
        accepted := accepted + chunk[..n];
        PolledCall(before, View(), SslWrite(chunk, n, code), false, cx);
        r := Ready(Ok(n));
      } else if code.Wanted().Some? {
        WriteBlocks(before, chunk, n, code);
        PrefixOfPrefix(chunk, buf, |chunk|);
        assert pendingWrite + chunk == chunk;
        pendingWrite := pendingWrite + chunk;
        accepted := accepted + chunk;
        PolledCall(before, View(), SslWrite(chunk, n, code), false, cx);
        r := Ready(Ok(|chunk|));
      } else {
        WriteFails(before, chunk, n, code);
        var error := WriteFailure(code.Report());
        PolledNotify(called, View(), false, cx);
        PolledThen(before, called, View(), false, cx, false, true, false, false);
        r := Ready(Err(error));
      }
    }

    /** `write(2)` until it accepts, fails, or the socket is not writable. */
    method KtlsPollWrite(cx: Waker, buf: seq<byte>) returns (r: Poll<Result<nat, IoError>>)
      requires Valid() && ktlsActive && writeError.None? && shutdown == Open
      modifies this`accepted, io
      ensures Valid() && old(io.trace) < io.trace
      ensures r.Ready? && r.value.Ok? ==>
                r.value.value <= |buf| && accepted == old(accepted) + buf[..r.value.value]
      ensures !(r.Ready? && r.value.Ok?) ==> accepted == old(accepted)
      ensures KernelWriteReply(io.trace, cx, buf, r)
      ensures io.events <= old(io.events)
      ensures io.clock + 2 * io.events <= old(io.clock) + 2 * old(io.events) + 1
    {
      hide RecordReader.Valid, Lawful, Doomed, Mirrors, Observe, Observe1, After, Polled, KernelWriteReply;
      while true
        invariant Usable(View()) && ktlsReader.Valid() && accepted == old(accepted)
        invariant old(io.trace) <= io.trace
        invariant io.events <= old(io.events)
        invariant io.clock + 2 * io.events <= old(io.clock) + 2 * old(io.events)
        decreases io.events
      {
        var settled := KernelWriteOnce(cx, buf);
        if settled.Some? {
          return settled.value;
        }
      }
    }

    /** One `write(2)`: the poll's answer, or `None` to go round again. */
    method KernelWriteOnce(cx: Waker, buf: seq<byte>) returns (r: Option<Poll<Result<nat, IoError>>>)
      requires Usable(View()) && ktlsActive && shutdown == Open
      modifies this`accepted, io
      ensures Usable(View()) && old(io.trace) < io.trace
      ensures r.Some? && r.value.Ready? && r.value.value.Ok? ==>
                r.value.value.value <= |buf| && accepted == old(accepted) + buf[..r.value.value.value]
      ensures !(r.Some? && r.value.Ready? && r.value.value.Ok?) ==> accepted == old(accepted)
      ensures if r.Some? then KernelWriteReply(io.trace, cx, buf, r.value) else GoesRound(io.trace, |old(io.trace)|, buf)
      ensures io.events <= old(io.events) && (r.None? ==> io.events < old(io.events))
      ensures io.clock == old(io.clock) + 1
    {
      hide RecordReader.Valid, Lawful, Doomed, Mirrors, Observe, Observe1, After, Polled, KernelWriteReply;
      ghost var before := View();
      NoneHeldBack(before);
      var w := io.KernelWrite(buf);
      KernelWrites(before, buf, w);
      match w {
        case Ok(n) =>
          KernelWriteSettles(before.trace, cx, buf, w);
          accepted := accepted + buf[..n];
          r := Some(Ready(Ok(n)));
        case Err(e) =>
          if e.Kind() == WouldBlock {
            ghost var blocked := View();
            var ready := io.PollKernelReady(cx, WriteSide);
            KernelChecks(blocked, cx, WriteSide, ready);
            if !ready.IsReady? {
              KernelWriteWaits(before.trace, cx, buf, e, ready);
            }
            r := match ready {
              case IsReady => None
              case NotReady => Some(Pending)
              case Broken(error) => Some(Ready(Err(error)))
            };
          } else if e.Kind() == Interrupted {
            r := None;
          } else {
            KernelWriteSettles(before.trace, cx, buf, w);
            r := Some(Ready(Err(e)));
          }
      }
    }

    method PollFlush(cx: Waker) returns (r: Poll<IoResult>)
      requires Valid()
      modifies this`pendingWrite, this`waiters, this`writeError, io, waiters
      ensures Valid() && SameWaiters()
      ensures old(io.trace) <= io.trace
      // a successful flush leaves nothing behind: every acknowledged byte has been written
      ensures Succeeds(r) ==> pendingWrite == [] && accepted == Observe(io.trace).committed
      ensures old(writeError).Some? ==> View() == old(View()) && r == Ready(Err(writeError.value))
      ensures Fails(r) <==> writeError.Some?
      ensures Fails(r) ==> SameReport(r.value.error, writeError.value)
      ensures Fails(r) && old(writeError).None? ==> FailedWith(r.value.error)
      ensures r.Pending? ==> Parked(cx, false)
      ensures Polled(old(View()), View(), false, cx,
                r.Ready? && old(pendingWrite) != [] && old(writeError).None?, r.Pending?)
      ensures io.events <= old(io.events)
      ensures io.clock + 2 * io.events <= old(io.clock) + 2 * old(io.events) + 2
    {
      hide RecordReader.Valid, Lawful, Doomed, Mirrors, Observe, Observe1, After, Polled, Parked, FailedWith;
      r := PollPendingWrite(cx, false);
      if Succeeds(r) {
        NothingHeldBack(View());
      }
    }

    /** Finish sending accepted plaintext, then send close_notify once. */
    method PollShutdown(cx: Waker) returns (r: Poll<IoResult>)
      requires Valid()
      modifies this`pendingWrite, this`waiters, this`writeError, this`shutdown, io, waiters
      ensures Valid() && SameWaiters()
      ensures old(io.trace) <= io.trace
      // success means close_notify is out, after every acknowledged byte
      ensures Succeeds(r) ==> shutdown == StreamLaws.Closed && accepted == Observe(io.trace).committed
      ensures old(shutdown) != Open ==> shutdown != Open
      ensures Succeeds(r) && old(shutdown) != StreamLaws.Closed ==> old(io.trace) < io.trace && Finished(ktlsActive)
      ensures old(writeError).Some? ==> View() == old(View()) && r == Ready(Err(writeError.value))
      ensures old(writeError).None? && old(shutdown) == StreamLaws.Closed ==> View() == old(View()) && Succeeds(r)
      ensures Fails(r) <==> writeError.Some?
      ensures Fails(r) ==> SameReport(r.value.error, writeError.value)
      ensures Fails(r) && old(writeError).None? ==> FailedWith(r.value.error)
      ensures r.Pending? ==>
                && old(io.trace) < io.trace && writeError.None?
                && (|| Parked(cx, false)
                    || (ktlsActive && io.trace[|io.trace| - 1] == KernelChecked(cx, WriteSide, NotReady))
                    || (ktlsActive && io.trace[|io.trace| - 1] == SelfWoken(cx)))
      // the reader hears if the bytes held back went out or the write side failed, and else is still waiting
      ensures !ktlsActive ==>
                Polled(old(View()), View(), false, cx, Settles(old(View()), View()), r.Pending?)
      ensures ktlsActive ==> WaitersKept(old(View()), View(), false, cx, old(writeError).None? && writeError.Some?)
      ensures io.events <= old(io.events)
      ensures io.clock + 2 * io.events <=
                old(io.clock) + 2 * old(io.events) + (if ktlsActive then IO_BUDGET + 3 else 4)
    {
      hide RecordReader.Valid, Lawful, Doomed, Mirrors, Observe, Observe1, After, Polled, WaitersKept;
      hide Occupied, AllIn, Parked, SameReport, FailedWith;
      ghost var start := View();
      if shutdown != Open || ktlsActive {
        NoneHeldBack(start);
      }
      KeptAsIs(start, start, false, cx);
      var flushed := PollPendingWrite(cx, false);
      if !Succeeds(flushed) {
        return flushed;
      }
      ghost var ready := View();
      if shutdown == StreamLaws.Closed {
        NothingHeldBack(ready);
        return Ready(Ok(Unit));
      }
      r := Close(cx);
      if !ktlsActive {
        PolledThen(start, ready, View(), false, cx, start.pending != [], writeError.Some?, false, r.Pending?);
      }
    }

    /** The part of the shutdown that follows the flush. */
    method Close(cx: Waker) returns (r: Poll<IoResult>)
      requires MayClose(View()) && ktlsReader.Valid()
      modifies this`waiters, this`writeError, this`shutdown, io, waiters
      ensures Valid() && SameWaiters()
      ensures old(io.trace) < io.trace && shutdown != Open
      ensures Succeeds(r) ==>
                shutdown == StreamLaws.Closed && accepted == Observe(io.trace).committed && Finished(ktlsActive)
      ensures Fails(r) <==> writeError.Some?
      ensures Fails(r) ==> SameReport(r.value.error, writeError.value) && FailedWith(r.value.error)
      ensures r.Pending? ==> if ktlsActive then Rescheduled(cx) else Parked(cx, false)
      ensures !ktlsActive ==> Polled(old(View()), View(), false, cx, writeError.Some?, r.Pending?)
      ensures ktlsActive ==> WaitersKept(old(View()), View(), false, cx, writeError.Some?)
      ensures io.events <= old(io.events)
      ensures ktlsActive ==> io.clock <= old(io.clock) + IO_BUDGET + 1
      ensures !ktlsActive ==> io.clock + 2 * io.events <= old(io.clock) + 2 * old(io.events) + 2
    {
      hide RecordReader.Valid, Lawful, Doomed, Mirrors, Observe, Observe1, After, Polled, WaitersKept, Occupied, AllIn;
      hide Parked, SameReport, Rescheduled, FailedWith;
      ghost var start, prior := View(), shutdown;
      shutdown := Sending;
      if ktlsActive {
        r := KtlsShutdown(cx, prior);
      } else {
        r := SslShutdown(cx, prior);
      }
      Apart(start, View(), false, cx, writeError.Some?, r.Pending?);
      if Succeeds(r) {
        NothingHeldBack(View());
      }
    }

    /** The latest event is the one that completes a shutdown on this data path. */
    ghost predicate Finished(kernel: bool)
      reads io
    {
      && io.trace != []
      && var last := io.trace[|io.trace| - 1];
         if kernel then last.TcpShutdown? && last.done.Ok? else last.SslShutdown? && last.ret >= 0
    }

    /** Drive `SSL_shutdown`. `prior` is the state that the latest attempt, if any, left behind. */
    method SslShutdown(cx: Waker, ghost prior: Shutdown) returns (r: Poll<IoResult>)
      requires shutdown == Sending && MayClose(View().(shutdown := prior))
      modifies this`waiters, this`writeError, this`shutdown, io, waiters
      ensures Lawful(View()) && SameWaiters()
      ensures old(io.trace) < io.trace
      ensures Succeeds(r) <==> shutdown == StreamLaws.Closed
      ensures Succeeds(r) ==> Finished(false)
      ensures shutdown != Open
      ensures Fails(r) <==> writeError.Some?
      ensures Fails(r) ==> SameReport(r.value.error, writeError.value) && FailedWith(r.value.error)
      ensures r.Pending? ==> Parked(cx, false)
      ensures Polled(old(View()), View(), false, cx, writeError.Some?, r.Pending?)
      ensures io.events <= old(io.events)
      ensures io.clock + 2 * io.events <= old(io.clock) + 2 * old(io.events) + 2
    {
      hide FailedWith, SameReport;
      hide RecordReader.Valid, Lawful, Doomed, Mirrors, Observe, Observe1, After, Polled, Occupied, AllIn;
      ghost var state := prior;
      PolledNothing(View(), View(), false, cx);
      while true
        invariant shutdown == Sending && MayClose(View().(shutdown := state)) && SameWaiters()
        invariant Polled(old(View()), View(), false, cx, false, false)
        invariant old(io.trace) <= io.trace
        invariant io.events <= old(io.events)
        invariant io.clock + 2 * io.events <= old(io.clock) + 2 * old(io.events)
        decreases io.events
      {
        ghost var before := View();
        var settled := CloseOnce(cx, state);
        PolledThen(old(View()), before, View(), false, cx, false, writeError.Some?, false, settled == Some(Pending));
        state := Sending;
        if settled.Some? {
          return settled.value;
        }
      }
    }

    /** One `SSL_shutdown`: the poll's answer, or `None` to go round again. */
    method CloseOnce(cx: Waker, ghost prior: Shutdown) returns (r: Option<Poll<IoResult>>)
      requires shutdown == Sending && MayClose(View().(shutdown := prior))
      modifies this`waiters, this`writeError, this`shutdown, io, waiters
      ensures Lawful(View()) && SameWaiters()
      ensures old(io.trace) < io.trace
      ensures match r
              case None => shutdown == Sending && writeError.None?
              case Some(Pending) => shutdown == Sending && writeError.None? && Parked(cx, false)
              case Some(Ready(Ok(_))) => shutdown == StreamLaws.Closed && writeError.None? && Finished(false)
              case Some(Ready(Err(e))) =>
                shutdown == Sending && writeError.Some? && SameReport(e, writeError.value) && FailedWith(e)
      ensures Polled(old(View()), View(), false, cx, writeError.Some?, r == Some(Pending))
      ensures io.events == if r.None? then old(io.events) - 1 else old(io.events)
      ensures io.clock == old(io.clock) + 2 || (r.Some? && io.clock == old(io.clock) + 1)
    {
      hide FailedWith, SameReport;
      hide RecordReader.Valid, Lawful, Doomed, Mirrors, Observe, Observe1, After, Polled, Occupied, AllIn;
      ghost var start := View();
      ghost var before := View().(shutdown := prior);
      var ret, code := io.SslShutdown();
      CloseCalls(before, ret, code);
      ghost var called := View();
      PolledCall(start, called, Event.SslShutdown(ret, code), false, cx);
      if ret >= 0 {
        shutdown := StreamLaws.Closed;
        PolledCall(start, View(), Event.SslShutdown(ret, code), false, cx);
        return Some(Ready(Ok(Unit)));
      }
      if code.Wanted().Some? {
        r := WaitToWrite(Closing, code, cx, false);
      } else {
        var error := WriteFailure(code.Report());
        PolledNotify(called, View(), false, cx);
        r := Some(Ready(Err(error)));
      }
      PolledThen(start, called, View(), false, cx, false, writeError.Some?, false, r == Some(Pending));
    }

    /** Send the alert through the kernel, then close the TCP write half. */
    method KtlsShutdown(cx: Waker, ghost prior: Shutdown) returns (r: Poll<IoResult>)
      requires shutdown == Sending && MayClose(View().(shutdown := prior))
      modifies this`writeError, this`shutdown, io, waiters
      ensures Lawful(View())
      ensures old(io.trace) < io.trace
      ensures Succeeds(r) ==> shutdown == StreamLaws.Closed && writeError.None? && Finished(true)
      ensures shutdown != Open
      ensures Fails(r) <==> writeError.Some?
      ensures Fails(r) ==> SameReport(r.value.error, writeError.value) && FailedWith(r.value.error)
      ensures r.Pending? ==> Rescheduled(cx)
      ensures WaitersKept(old(View()), View(), false, cx, writeError.Some?)
      ensures io.events <= old(io.events)
      ensures io.clock <= old(io.clock) + IO_BUDGET + 1
    {
      hide FailedWith, SameReport;
      hide RecordReader.Valid, Lawful, Doomed, Mirrors, Observe, Observe1, After, Polled, WaitersKept;
      hide Occupied, AllIn;
      ghost var start := View();
      var sent := PollCloseNotify(cx, prior);
      KeptAsIs(start, View(), false, cx);
      if sent.Pending? {
        return Pending;
      }
      if sent.value.Err? {
        var error := WriteFailure(sent.value.error);
        KeptByNotify(start, View(), false, cx);
        return Ready(Err(error));
      }
      shutdown := StreamLaws.Closed;
      r := CloseTcp(cx, start);
    }

    /** close_notify is out: shut the TCP write half. */
    method CloseTcp(ghost cx: Waker, ghost start: Stream) returns (r: Poll<IoResult>)
      requires Usable(View()) && shutdown == StreamLaws.Closed
      requires start.slots == View().slots && start.woken == View().woken && start.writeError.None?
      modifies this`writeError, io, waiters
      ensures Lawful(View()) && old(io.trace) < io.trace && r.Ready?
      ensures Succeeds(r) ==> writeError.None? && Finished(true)
      ensures Fails(r) <==> writeError.Some?
      ensures Fails(r) ==> SameReport(r.value.error, writeError.value) && FailedWith(r.value.error)
      ensures WaitersKept(start, View(), false, cx, writeError.Some?)
      ensures io.events == old(io.events) && io.clock == old(io.clock) + 1
    {
      hide FailedWith, SameReport;
      hide RecordReader.Valid, Lawful, Doomed, Mirrors, Observe, Observe1, After, WaitersKept, Occupied, AllIn;
      ghost var before := View();
      var closed := io.TcpShutdown();
      TcpCloses(before, closed);
      if closed.Err? {
        var error := WriteFailure(closed.error);
        KeptByNotify(start, View(), false, cx);
        return Ready(Err(error));
      }
      KeptAsIs(start, View(), false, cx);
      r := Ready(Ok(Unit));
    }

    /** The latest event of this poll registered `cx` for writability or woke it. */
    ghost predicate Rescheduled(cx: Waker)
      reads io
    {
      && io.trace != []
      && (|| io.trace[|io.trace| - 1] == KernelChecked(cx, WriteSide, NotReady)
          || io.trace[|io.trace| - 1] == SelfWoken(cx))
    }

    /** At most `IO_BUDGET` attempts to hand both alert bytes to the kernel in one send. */
    method PollCloseNotify(cx: Waker, ghost prior: Shutdown) returns (r: Poll<IoResult>)
      requires shutdown == Sending && MayClose(View().(shutdown := prior))
      modifies io
      ensures old(io.trace) < io.trace
      ensures r.Pending? ==>
                && MayClose(View()) && Rescheduled(cx)
                && (io.trace[|io.trace| - 1].SelfWoken? ==> io.clock == old(io.clock) + IO_BUDGET)
      ensures Succeeds(r) ==> Usable(View().(shutdown := StreamLaws.Closed))
      ensures Fails(r) ==> Doomed(View(), r.value.error)
      ensures io.trace[|io.trace| - 1].SelfWoken? || AlertReply(io.trace, cx, Some(r))
      ensures io.events <= old(io.events)
      ensures io.clock <= old(io.clock) + IO_BUDGET
    {
      hide RecordReader.Valid, Lawful, Doomed, Mirrors, Observe, Observe1, After, Polled, Occupied, AllIn;
      ghost var state := prior;
      for n := 0 to IO_BUDGET
        invariant MayClose(View().(shutdown := state)) && (n > 0 ==> state == Sending && old(io.trace) < io.trace)
        invariant old(io.trace) <= io.trace
        invariant io.clock == old(io.clock) + n && io.events <= old(io.events)
      {
        var settled := AlertOnce(cx, state);
        state := Sending;
        if settled.Some? {
          return settled.value;
        }
      }
      SelfWakes(View(), cx);
      NothingUnheard(View());
      io.SelfWake(cx);
      r := Pending;
    }

    /** One send of the alert: the answer, or `None` to go round again. */
    method AlertOnce(cx: Waker, ghost prior: Shutdown) returns (r: Option<Poll<IoResult>>)
      requires shutdown == Sending && MayClose(View().(shutdown := prior))
      modifies io
      ensures old(io.trace) < io.trace
      ensures match r
              case None => MayClose(View())
              case Some(Pending) =>
                MayClose(View()) && io.trace[|io.trace| - 1] == KernelChecked(cx, WriteSide, NotReady)
              case Some(Ready(Ok(_))) => Usable(View().(shutdown := StreamLaws.Closed))
              case Some(Ready(Err(e))) => Doomed(View(), e)
      ensures AlertReply(io.trace, cx, r)
      ensures io.clock == old(io.clock) + 1 && io.events <= old(io.events)
    {
      hide RecordReader.Valid, Lawful, Doomed, Mirrors, Observe, Observe1, After, AlertReply;
      ghost var before := View().(shutdown := prior);
      var sent := io.KernelAlert();
      AlertSends(before, sent);
      match sent {
        case Ok(n) =>
          r := Some(Ready(CheckCloseNotifyWrite(n)));
          AlertSettles(before.trace, cx, sent, r);
        case Err(e) =>
          if e.Kind() == WouldBlock {
            ghost var blocked := View();
            var ready := io.PollKernelReady(cx, WriteSide);
            KernelChecks(blocked, cx, WriteSide, ready);
            r := match ready {
              case IsReady => None
              case NotReady => Some(Pending)
              case Broken(error) => Some(Ready(Err(error)))
            };
            AlertWaits(before.trace, cx, e, ready, r);
          } else {
            r := if e.Kind() == Interrupted then None else Some(Ready(Err(e)));
            AlertSettles(before.trace, cx, sent, r);
          }
      }
    }
  }

  lemma PrefixOfPrefix(chunk: seq<byte>, buf: seq<byte>, n: nat)
    requires chunk <= buf && n <= |chunk|
    ensures chunk[..n] == buf[..n] && chunk[..|chunk|] == chunk
  {
  }

  /** The tail of `accept` and `connect`: a stream exists only if the install did not fail, so no caller
      ever holds a stream with one direction offloaded. */
  method Establish(io: Session, ktlsDisabled: bool, sock: KernelSocket, h: Handshake, linux: bool, hasPending: bool)
    returns (r: Result<TlsStream, Error>)
    requires io.trace == [] && !sock.ulp && sock.rx.None? && sock.tx.None?
    modifies sock
    ensures r.Ok? ==>
              && r.value.Valid() && r.value.io == io && fresh(r.value) && r.value.ktlsDisabled == ktlsDisabled
              && r.value.View() == FRESH.(ktls := r.value.ktlsActive)
              && sock.rx.Some? == sock.tx.Some? == r.value.ktlsActive
              && (r.value.ktlsActive <==> !ktlsDisabled && !hasPending && Offloads(sock, h, linux))
    ensures r.Err? <==> !ktlsDisabled && !hasPending && Condemns(sock, h, linux)
    ensures r.Err? ==> Detect(h).Some? && r.error == Verdict(sock, h)
  {
    var stream := new TlsStream(io, ktlsDisabled);
    var installed := stream.TryAutoInstallKtls(sock, h, linux, hasPending);
    r := match installed
      case Ok(_) => Ok(stream)
      case Err(e) => Err(e);
  }
}
