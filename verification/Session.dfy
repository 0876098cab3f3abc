/** The foreign side of one connection: libssl, the socket and the reactor.

    Every call is answered from an arbitrary script, so whatever is proved holds for all behaviours
    of the foreign code. The methods only normalise an answer to its documented range (a write never
    reports more bytes than it was offered) and record the call in the trace. */
module Session {
  import opened Basics
  import opened Records
  import opened Trace
  import opened Waiters

  datatype Answer = Answer(
    count: int,
    code: SslCode,
    bytes: seq<byte>,
    readiness: Readiness,
    outcome: Result<nat, IoError>,
    message: Message,
    done: IoResult)

  /** Readiness has to come out of the store of events. */
  function Unless(r: Readiness, exhausted: bool): Readiness {
    if r.IsReady? && exhausted then NotReady else r
  }

  class Session {
    const script: nat -> Answer
    /** Foreign calls made so far. */
    var clock: nat
    /** Events the outside world has in store during polls; waiting for readiness uses them up. */
    var events: nat
    ghost var trace: seq<Event>

    constructor (script: nat -> Answer, events: nat)
      ensures trace == [] && this.script == script && this.events == events && clock == 0
    {
      this.script := script;
      this.events := events;
      clock, trace := 0, [];
    }

    /** The reactor delivers more events between polls. */
    method Arrive(n: nat)
      modifies this`events
      ensures events == old(events) + n
    {
      events := events + n;
    }

    method SslWrite(data: seq<byte>) returns (n: int, code: SslCode)
      modifies this`clock, this`trace
      ensures clock == old(clock) + 1
      ensures n <= |data|
      ensures n > 0 ==> code.Wanted().None?
      ensures n == Min(script(old(clock)).count, |data|) && (n <= 0 ==> code == script(old(clock)).code)
      ensures trace == old(trace) + [Event.SslWrite(data, n, code)]
      ensures Observe(trace) == Observe1(Observe(old(trace)), Event.SslWrite(data, n, code))
    {
      var a := script(clock);
      n := Min(a.count, |data|);
      code := if n > 0 then OtherCode(0) else a.code;
      clock := clock + 1;
      ObserveMore(trace, Event.SslWrite(data, n, code));
      trace := trace + [Event.SslWrite(data, n, code)];
    }

    /** A successful `SSL_read` yields between one and `cap` bytes. */
    method SslRead(cap: nat) returns (got: seq<byte>, code: SslCode)
      modifies this`clock, this`trace
      ensures clock == old(clock) + 1
      ensures |got| <= cap
      ensures got != [] ==> code.Wanted().None?
      ensures var a := script(old(clock)); got == a.bytes[..Min(|a.bytes|, cap)] && (got == [] ==> code == a.code)
      ensures trace == old(trace) + [Event.SslRead(cap, got, code)]
      ensures Observe(trace) == Observe1(Observe(old(trace)), Event.SslRead(cap, got, code))
    {
      var a := script(clock);
      got := a.bytes[..Min(|a.bytes|, cap)];
      code := if got != [] then ZeroReturn else a.code;
      clock := clock + 1;
      ObserveMore(trace, Event.SslRead(cap, got, code));
      trace := trace + [Event.SslRead(cap, got, code)];
    }

    method SslShutdown() returns (ret: int, code: SslCode)
      modifies this`clock, this`trace
      ensures clock == old(clock) + 1
      ensures ret == script(old(clock)).count && code == script(old(clock)).code
      ensures trace == old(trace) + [Event.SslShutdown(ret, code)]
      ensures Observe(trace) == Observe1(Observe(old(trace)), Event.SslShutdown(ret, code))
    {
      ret, code := script(clock).count, script(clock).code;
      clock := clock + 1;
      ObserveMore(trace, Event.SslShutdown(ret, code));
      trace := trace + [Event.SslShutdown(ret, code)];
    }

    /** Ghost note that the caller's waker is now in its slot. */
    ghost method NoteRegistered(reader: bool, waker: Waker)
      modifies this`trace
      ensures trace == old(trace) + [Registered(reader, waker)]
      ensures Observe(trace) == Observe1(Observe(old(trace)), Registered(reader, waker))
    {
      ObserveMore(trace, Registered(reader, waker));
      trace := trace + [Registered(reader, waker)];
    }

    /** Ghost note that both slots have been taken and their occupants woken. */
    ghost method NoteNotified(poller: bool)
      modifies this`trace
      ensures trace == old(trace) + [Notified(poller)]
      ensures Observe(trace) == Observe1(Observe(old(trace)), Notified(poller))
    {
      ObserveMore(trace, Notified(poller));
      trace := trace + [Notified(poller)];
    }

    /** `poll_clear_read_ready` / `poll_clear_write_ready`: being ready uses up the cached event. */
    method PollClearReady(dir: Direction) returns (r: Readiness)
      modifies this`clock, this`trace, this`events
      ensures clock == old(clock) + 1
      ensures trace == old(trace) + [Checked(dir, r)]
      ensures Observe(trace) == Observe1(Observe(old(trace)), Checked(dir, r))
      ensures r == Unless(script(old(clock)).readiness, old(events) == 0)
      ensures r.IsReady? ==> old(events) > 0 && events == old(events) - 1
      ensures !r.IsReady? ==> events == old(events)
    {
      r := script(clock).readiness;
      if r.IsReady? {
        if events > 0 {
          events := events - 1;
        } else {
          r := NotReady;
        }
      }
      clock := clock + 1;
      ObserveMore(trace, Checked(dir, r));
      trace := trace + [Checked(dir, r)];
    }

    /** `write(2)` on a kTLS socket. Signals come out of the same finite store as readiness events. */
    method KernelWrite(data: seq<byte>) returns (r: Result<nat, IoError>)
      modifies this`clock, this`trace, this`events
      ensures clock == old(clock) + 1
      ensures r.Ok? ==> r.value <= |data|
      ensures var a := script(old(clock)).outcome;
              && (a.Ok? ==> r == Ok(Min(a.value, |data|)))
              && (a.Err? && (a.error.Kind() != Interrupted || old(events) > 0) ==> r == a)
      ensures trace == old(trace) + [Event.KernelWrite(data, r)]
      ensures Observe(trace) == Observe1(Observe(old(trace)), Event.KernelWrite(data, r))
      ensures events <= old(events)
      ensures r.Err? && r.error.Kind() == Interrupted ==> events < old(events)
    {
      r := script(clock).outcome;
      if r.Ok? {
        r := Ok(Min(r.value, |data|));
      } else if r.error.Kind() == Interrupted {
        if events > 0 {
          events := events - 1;
        } else {
          r := Err(Os(EAGAIN));
        }
      }
      clock := clock + 1;
      ObserveMore(trace, Event.KernelWrite(data, r));
      trace := trace + [Event.KernelWrite(data, r)];
    }

    /** `sendmsg` of the two alert bytes. */
    method KernelAlert() returns (sent: Result<nat, IoError>)
      modifies this`clock, this`trace
      ensures sent.Ok? ==> sent.value <= 2
      ensures var a := script(old(clock)).outcome; sent == if a.Ok? then Ok(Min(a.value, 2)) else a
      ensures trace == old(trace) + [Event.KernelAlert(sent)]
      ensures Observe(trace) == Observe1(Observe(old(trace)), Event.KernelAlert(sent))
      ensures clock == old(clock) + 1
    {
      sent := script(clock).outcome;
      if sent.Ok? {
        sent := Ok(Min(sent.value, 2));
      }
      clock := clock + 1;
      ObserveMore(trace, Event.KernelAlert(sent));
      trace := trace + [Event.KernelAlert(sent)];
    }

    /** `poll_read_ready` / `poll_write_ready` with the caller's own waker, after a system call that
        would block: not ready means that waker is registered. */
    method PollKernelReady(cx: Waker, dir: Direction) returns (r: Readiness)
      modifies this`trace, this`events
      ensures trace == old(trace) + [KernelChecked(cx, dir, r)]
      ensures Observe(trace) == Observe1(Observe(old(trace)), KernelChecked(cx, dir, r))
      ensures r == Unless(script(old(clock)).readiness, old(events) == 0)
      ensures r.IsReady? ==> old(events) > 0 && events == old(events) - 1
      ensures !r.IsReady? ==> events == old(events)
    {
      r := script(clock).readiness;
      if r.IsReady? {
        if events > 0 {
          events := events - 1;
        } else {
          r := NotReady;
        }
      }
      ObserveMore(trace, KernelChecked(cx, dir, r));
      trace := trace + [KernelChecked(cx, dir, r)];
    }

    /** `cx.waker().wake_by_ref()`. */
    method SelfWake(cx: Waker)
      requires !Observe(trace).unheard
      modifies this`trace
      ensures trace == old(trace) + [SelfWoken(cx)]
      ensures Alike(Observe(trace), Observe(old(trace)))
    {
      hide Observe, Observe1, Allowed;
      ObserveMore(trace, SelfWoken(cx));
      Indifferent(Observe(trace), SelfWoken(cx));
      trace := trace + [SelfWoken(cx)];
    }

    method TcpShutdown() returns (r: IoResult)
      modifies this`clock, this`trace
      ensures clock == old(clock) + 1
      ensures r == script(old(clock)).done
      ensures trace == old(trace) + [Event.TcpShutdown(r)]
      ensures Observe(trace) == Observe1(Observe(old(trace)), Event.TcpShutdown(r))
    {
      r := script(clock).done;
      clock := clock + 1;
      ObserveMore(trace, Event.TcpShutdown(r));
      trace := trace + [Event.TcpShutdown(r)];
    }

    /** `recvmsg` on a kTLS socket, into a buffer of this capacity. */
    method Recv(capacity: nat) returns (r: Result<Message, IoError>)
      requires !Observe(trace).unheard
      modifies this`clock, this`trace
      ensures var a := script(old(clock)); r == if a.outcome.Ok? then Ok(a.message) else Err(a.outcome.error)
      ensures trace == old(trace) + [KernelRecv(r, capacity)]
      ensures Alike(Observe(trace), Observe(old(trace)))
      ensures clock == old(clock) + 1
    {
      hide Observe, Observe1, Allowed;
      var a := script(clock);
      r := if a.outcome.Ok? then Ok(a.message) else Err(a.outcome.error);
      clock := clock + 1;
      ObserveMore(trace, KernelRecv(r, capacity));
      Indifferent(Observe(trace), KernelRecv(r, capacity));
      trace := trace + [KernelRecv(r, capacity)];
    }
  }
}
